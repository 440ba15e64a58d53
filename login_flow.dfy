/** The generic login attempt of the server adapter (`handleLogin` in
    server/puppeteerService.server.ts), stated as the sequence of acting calls it makes on
    a page: find a username field, find a password field, type into both, then try the
    submit buttons in turn. Every failure inside it is swallowed. */
module LoginFlow {
  import opened Wrappers
  import opened PuppeteerApi

  /** Tried in this order; each must appear within 3000 ms and then be found. */
  const UsernameSelectors: seq<string> := [
    "input[type=\"email\"]",
    "input[name=\"username\"]",
    "input[name=\"email\"]",
    "input[id=\"username\"]",
    "input[id=\"email\"]"]

  /** Tried in this order, without waiting. */
  const PasswordSelectors: seq<string> := [
    "input[type=\"password\"]",
    "input[name=\"password\"]",
    "input[id=\"password\"]"]

  /** Tried in this order. The last two use the `:contains` pseudo-class, which is not
      standard CSS; what a page does with them is whatever its `query` answers. */
  const SubmitSelectors: seq<string> := [
    "button[type=\"submit\"]",
    "input[type=\"submit\"]",
    "button:contains(\"Login\")",
    "button:contains(\"Sign in\")"]

  /** A username field is taken from a selector that appears in time and is then found: a
      selector that would give a password field and that the wait also accepts. */
  function UsernameTest(b: PageBehaviour): (t: string -> bool)
    ensures forall s :: t(s) <==> b.appears(s) && PasswordTest(b)(s)
  {
    s => b.appears(s) && b.query(s) == Found
  }

  /** A password field is taken from a selector that is found; a lookup that answers
      nothing or throws moves on to the next selector. */
  function PasswordTest(b: PageBehaviour): (t: string -> bool)
    ensures forall s :: b.query(s) == NotFound ==> !t(s)
    ensures forall s :: b.query(s) == Throws ==> !t(s)
  {
    s => b.query(s) == Found
  }

  /** The first selector that passes `found`, trying them in order. */
  function FirstFound(selectors: seq<string>, found: string -> bool): (r: Option<string>)
    ensures r.Some? ==> r.value in selectors && found(r.value)
  {
    if |selectors| == 0 then None
    else if found(selectors[0]) then Some(selectors[0])
    else FirstFound(selectors[1..], found)
  }

  /** The search above picks selector s exactly when s is the first one that passes, and
      picks none exactly when none passes. */
  lemma {:induction false} FirstFoundIsFirst(selectors: seq<string>, found: string -> bool, s: string)
    ensures FirstFound(selectors, found) == Some(s) <==>
            exists i :: 0 <= i < |selectors| && selectors[i] == s && found(s) &&
                        forall j :: 0 <= j < i ==> !found(selectors[j])
    ensures FirstFound(selectors, found).None? <==> forall i :: 0 <= i < |selectors| ==> !found(selectors[i])
  {
    if |selectors| > 0 {
      FirstFoundIsFirst(selectors[1..], found, s);
      if FirstFound(selectors, found) == Some(s) {
        if found(selectors[0]) {
          assert selectors[0] == s;
        } else {
          var i :| 0 <= i < |selectors[1..]| && selectors[1..][i] == s && found(s) &&
                   forall j :: 0 <= j < i ==> !found(selectors[1..][j]);
          assert forall j :: 0 <= j < i + 1 ==> !found(selectors[j]) by {
            forall j | 0 <= j < i + 1
              ensures !found(selectors[j])
            {
              if j > 0 {
                assert selectors[j] == selectors[1..][j - 1];
              }
            }
          }
          assert selectors[i + 1] == s;
        }
      }
      if i :| 0 <= i < |selectors| && selectors[i] == s && found(s) &&
              forall j :: 0 <= j < i ==> !found(selectors[j]) {
        if i > 0 {
          assert selectors[1..][i - 1] == s;
          assert forall j :: 0 <= j < i - 1 ==> selectors[1..][j] == selectors[j + 1];
        }
      }
      if forall i :: 0 <= i < |selectors| ==> !found(selectors[i]) {
        assert forall i :: 0 <= i < |selectors[1..]| ==> selectors[1..][i] == selectors[i + 1];
      }
      if FirstFound(selectors, found).None? {
        forall i | 0 <= i < |selectors|
          ensures !found(selectors[i])
        {
          if i > 0 {
            assert selectors[i] == selectors[1..][i - 1];
          }
        }
      }
    }
  }

  /** The submit loop from the first selector of `selectors` on: a found button is clicked;
      the loop ends once a click and the navigation it triggers both resolve, and goes on to
      the next selector otherwise. */
  function SubmitActions(b: PageBehaviour, selectors: seq<string>): (r: seq<Action>)
    ensures |r| <= |selectors|
    ensures forall k :: 0 <= k < |r| ==> r[k].Click?
  {
    if |selectors| == 0 then []
    else
      var sel := selectors[0];
      if b.query(sel) != Found then SubmitActions(b, selectors[1..])
      else if b.clickOk(sel) && b.navigationOk(sel) then [Click(sel)]
      else [Click(sel)] + SubmitActions(b, selectors[1..])
  }

  /** What the whole attempt does: nothing unless both fields are found; otherwise it
      types the username, then (if that resolved) the password, then (if that resolved)
      tries the submit buttons. */
  function LoginActions(b: PageBehaviour, username: string, password: string): (r: seq<Action>)
    ensures |r| <= 2 + |SubmitSelectors|
    ensures |r| >= 1 ==> r[0].Type? && r[0].selector in UsernameSelectors && r[0].text == username
    ensures |r| >= 2 ==> r[1].Type? && r[1].selector in PasswordSelectors && r[1].text == password
    ensures forall k :: 2 <= k < |r| ==> r[k].Click?
  {
    var user := FirstFound(UsernameSelectors, UsernameTest(b));
    var pass := FirstFound(PasswordSelectors, PasswordTest(b));
    if user.None? || pass.None? then []
    else
      [Type(user.value, username)] +
      if !b.typeOk(user.value) then []
      else
        [Type(pass.value, password)] +
        if !b.typeOk(pass.value) then [] else SubmitActions(b, SubmitSelectors)
  }

  // ---------------------------------------------------------------------------------
  // Properties

  /** Every action of `r` clicks a found button among `selectors`, and every click but the
      last one failed to complete a submission. */
  predicate ClicksUntilSubmitted(b: PageBehaviour, selectors: seq<string>, r: seq<Action>)
  {
    forall k :: 0 <= k < |r| ==>
      r[k].Click? && r[k].selector in selectors && b.query(r[k].selector) == Found &&
      (k < |r| - 1 ==> !(b.clickOk(r[k].selector) && b.navigationOk(r[k].selector)))
  }

  /** Only found buttons among the candidates are clicked, and at most one submission
      completes: the one that ends the loop. */
  lemma {:induction false} SubmitClicksFoundButtons(b: PageBehaviour, selectors: seq<string>)
    ensures ClicksUntilSubmitted(b, selectors, SubmitActions(b, selectors))
  {
    if |selectors| > 0 {
      var rest := SubmitActions(b, selectors[1..]);
      var r := SubmitActions(b, selectors);
      SubmitClicksFoundButtons(b, selectors[1..]);
      forall k | 0 <= k < |r|
        ensures r[k].Click? && r[k].selector in selectors && b.query(r[k].selector) == Found &&
                (k < |r| - 1 ==> !(b.clickOk(r[k].selector) && b.navigationOk(r[k].selector)))
      {
        if b.query(selectors[0]) != Found {
          assert r[k] == rest[k];
          assert rest[k].selector in selectors[1..];
        } else if k > 0 {
          assert r[k] == rest[k - 1];
          assert rest[k - 1].selector in selectors[1..];
        }
      }
    }
  }

  /** When no found button completes a submission, every found button is clicked. */
  lemma {:induction false} SubmitTriesEveryFoundButton(b: PageBehaviour, selectors: seq<string>)
    requires forall i :: 0 <= i < |selectors| && b.query(selectors[i]) == Found ==>
               !(b.clickOk(selectors[i]) && b.navigationOk(selectors[i]))
    ensures forall i :: 0 <= i < |selectors| && b.query(selectors[i]) == Found ==>
              Click(selectors[i]) in SubmitActions(b, selectors)
  {
    if |selectors| > 0 {
      assert forall i :: 1 <= i < |selectors| ==> selectors[i] == selectors[1..][i - 1];
      SubmitTriesEveryFoundButton(b, selectors[1..]);
    }
  }

  /** Nothing is typed or clicked unless both a username and a password field are found;
      when both are, the first call types the username into the first username field. */
  lemma LoginNeedsBothFields(b: PageBehaviour, username: string, password: string)
    ensures var user := FirstFound(UsernameSelectors, UsernameTest(b));
            var pass := FirstFound(PasswordSelectors, PasswordTest(b));
            (LoginActions(b, username, password) == [] <==> user.None? || pass.None?) &&
            (LoginActions(b, username, password) != [] ==>
               LoginActions(b, username, password)[0] == Type(user.value, username))
  {
  }

  /** The password is typed only after the username was typed successfully, and only into
      the first password field found; the buttons are tried only after both resolved. */
  lemma LoginTypesInOrder(b: PageBehaviour, username: string, password: string)
    requires |LoginActions(b, username, password)| > 1
    ensures var user := FirstFound(UsernameSelectors, UsernameTest(b)).value;
            var pass := FirstFound(PasswordSelectors, PasswordTest(b)).value;
            var r := LoginActions(b, username, password);
            b.typeOk(user) && r[1] == Type(pass, password) &&
            (|r| > 2 ==> b.typeOk(pass) && r[2..] == SubmitActions(b, SubmitSelectors))
  {
    var user := FirstFound(UsernameSelectors, UsernameTest(b));
    var pass := FirstFound(PasswordSelectors, PasswordTest(b));
    var r := LoginActions(b, username, password);
    assert user.Some? && pass.Some? && b.typeOk(user.value);
    var tail := if !b.typeOk(pass.value) then [] else SubmitActions(b, SubmitSelectors);
    assert r == [Type(user.value, username)] + ([Type(pass.value, password)] + tail);
    assert r[2..] == tail;
  }
}
