/** The JavaScript string operations the core relies on, written out:
    `substring(0, n)`, `toLowerCase` (ASCII letters only), `trim`, `includes`
    and the decimal rendering of a non-negative integer in a template string. */
module JsString {

  /** `s.substring(0, n)`: the first n characters, or all of s when it is shorter. */
  function Prefix(s: string, n: nat): (r: string)
    ensures r <= s
    ensures |r| == if |s| <= n then |s| else n
  {
    if |s| <= n then s else s[..n]
  }

  function LowerChar(c: char): (d: char)
    ensures 'A' <= c <= 'Z' ==> 'a' <= d <= 'z' && d as int - c as int == 32
    ensures !('A' <= c <= 'Z') ==> d == c
  {
    if 'A' <= c <= 'Z' then (c as int + 32) as char else c
  }

  /** `s.toLowerCase()` restricted to ASCII: every other character is left as it is. */
  function Lower(s: string): (r: string)
    ensures |r| == |s|
  {
    if |s| == 0 then [] else [LowerChar(s[0])] + Lower(s[1..])
  }

  /** Lower-casing works character by character. */
  lemma {:induction false} LowerEach(s: string)
    ensures forall i :: 0 <= i < |s| ==> Lower(s)[i] == LowerChar(s[i])
  {
    if |s| > 0 {
      LowerEach(s[1..]);
      assert forall i :: 1 <= i < |s| ==> Lower(s)[i] == Lower(s[1..])[i - 1];
    }
  }

  /** The characters `String.prototype.trim` removes: ECMAScript WhiteSpace
      (TAB, VT, FF, SP, NBSP, ZWNBSP and the Zs category) and LineTerminator (LF, CR, LS, PS). */
  predicate IsSpace(c: char)
  {
    var k := c as int;
    k == 0x09 || k == 0x0A || k == 0x0B || k == 0x0C || k == 0x0D || k == 0x20 ||
    k == 0xA0 || k == 0x1680 || (0x2000 <= k <= 0x200A) || k == 0x2028 || k == 0x2029 ||
    k == 0x202F || k == 0x205F || k == 0x3000 || k == 0xFEFF
  }

  /** Drops the leading white space: the result is a suffix of s that does not start with it. */
  function TrimStart(s: string): (r: string)
    ensures |r| <= |s| && r == s[|s| - |r|..]
    ensures |r| > 0 ==> !IsSpace(r[0])
  {
    if |s| > 0 && IsSpace(s[0]) then TrimStart(s[1..]) else s
  }

  /** Only white space is dropped at the start. */
  lemma {:induction false} TrimStartDropsSpace(s: string)
    ensures forall i :: 0 <= i < |s| - |TrimStart(s)| ==> IsSpace(s[i])
  {
    if |s| > 0 && IsSpace(s[0]) {
      TrimStartDropsSpace(s[1..]);
      assert forall i :: 1 <= i < |s| ==> s[i] == s[1..][i - 1];
    }
  }

  /** Drops the trailing white space: the result is a prefix of s that does not end with it. */
  function TrimEnd(s: string): (r: string)
    ensures |r| <= |s| && r == s[..|r|]
    ensures |r| > 0 ==> !IsSpace(r[|r| - 1])
  {
    if |s| > 0 && IsSpace(s[|s| - 1]) then TrimEnd(s[..|s| - 1]) else s
  }

  /** Only white space is dropped at the end. */
  lemma {:induction false} TrimEndDropsSpace(s: string)
    ensures forall i :: |TrimEnd(s)| <= i < |s| ==> IsSpace(s[i])
  {
    if |s| > 0 && IsSpace(s[|s| - 1]) {
      TrimEndDropsSpace(s[..|s| - 1]);
    }
  }

  /** `s.trim()`. */
  function Trim(s: string): (r: string)
    ensures |r| <= |s|
    ensures |r| > 0 ==> !IsSpace(r[0]) && !IsSpace(r[|r| - 1])
  {
    TrimEnd(TrimStart(s))
  }

  /** k occurs in s starting at position i. */
  predicate OccursAt(s: string, k: string, i: nat)
  {
    i + |k| <= |s| && s[i..i + |k|] == k
  }

  /** `s.includes(k)`, searching from the left. */
  function Contains(s: string, k: string): (r: bool)
    ensures r ==> |k| <= |s|
  {
    if k <= s then true
    else if |s| == 0 then false
    else Contains(s[1..], k)
  }

  /** The search above finds k exactly when k occurs somewhere in s. */
  lemma {:induction false} ContainsIff(s: string, k: string)
    ensures Contains(s, k) <==> exists i: nat :: OccursAt(s, k, i)
  {
    if k <= s {
      assert OccursAt(s, k, 0);
    } else if |s| == 0 {
    } else {
      ContainsIff(s[1..], k);
      if Contains(s[1..], k) {
        var i: nat :| OccursAt(s[1..], k, i);
        assert s[1..][i..i + |k|] == s[i + 1..i + 1 + |k|];
        assert OccursAt(s, k, i + 1);
      }
      if i: nat :| OccursAt(s, k, i) {
        assert s[1..][i - 1..i - 1 + |k|] == s[i..i + |k|];
        assert OccursAt(s[1..], k, i - 1);
      }
    }
  }

  function DigitChar(d: nat): (c: char)
    requires d < 10
    ensures '0' <= c <= '9' && c as int - '0' as int == d
  {
    ('0' as int + d) as char
  }

  /** `${n}` for a non-negative integer: its decimal digits, most significant first, no leading zero. */
  function NatToString(n: nat): (r: string)
    ensures |r| >= 1
    ensures n < 10 <==> |r| == 1
    ensures forall i :: 0 <= i < |r| ==> '0' <= r[i] <= '9'
  {
    if n < 10 then [DigitChar(n)] else NatToString(n / 10) + [DigitChar(n % 10)]
  }

  /** Distinct numbers have distinct decimal renderings. */
  lemma {:induction false} NatToStringInjective(a: nat, b: nat)
    requires NatToString(a) == NatToString(b)
    ensures a == b
  {
    if a >= 10 && b >= 10 {
      var sa, sb := NatToString(a), NatToString(b);
      assert sa[|sa| - 1] == DigitChar(a % 10);
      assert sb[|sb| - 1] == DigitChar(b % 10);
      assert sa[..|sa| - 1] == NatToString(a / 10);
      assert sb[..|sb| - 1] == NatToString(b / 10);
      NatToStringInjective(a / 10, b / 10);
    } else if a < 10 && b < 10 {
      assert NatToString(a)[0] == DigitChar(a);
      assert NatToString(b)[0] == DigitChar(b);
    }
  }

  /** `s.split(sep)[0]`: everything before the first sep, or all of s when there is none. */
  function SplitHead(s: string, sep: char): (r: string)
    ensures r <= s
    ensures forall i :: 0 <= i < |r| ==> r[i] != sep
    ensures |r| < |s| ==> s[|r|] == sep
  {
    if |s| == 0 || s[0] == sep then [] else [s[0]] + SplitHead(s[1..], sep)
  }
}
