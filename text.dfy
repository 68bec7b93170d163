/** The java.lang.String operations the client relies on, over seq<char>. */
module Text {
  import opened Wrappers

  /** t occurs in s at position i. */
  predicate OccursAt(s: string, t: string, i: int) {
    0 <= i && i + |t| <= |s| && s[i..i + |t|] == t
  }

  /** The first occurrence of t in s at or after `from`, or -1 (String.indexOf). */
  function IndexOfFrom(s: string, t: string, from: nat): (r: int)
    ensures r == -1 || (from <= r && OccursAt(s, t, r))
    ensures r == -1 ==> forall j :: from <= j ==> !OccursAt(s, t, j)
    ensures r != -1 ==> forall j :: from <= j < r ==> !OccursAt(s, t, j)
    decreases |s| - from
  {
    if from + |t| > |s| then -1
    else if s[from..from + |t|] == t then from
    else IndexOfFrom(s, t, from + 1)
  }

  function IndexOf(s: string, t: string): (r: int)
    ensures r == -1 || OccursAt(s, t, r)
    ensures r == -1 <==> forall j :: !OccursAt(s, t, j)
    ensures forall j :: 0 <= j < r ==> !OccursAt(s, t, j)
  {
    IndexOfFrom(s, t, 0)
  }

  /** String.contains. */
  predicate Contains(s: string, t: string) {
    IndexOf(s, t) >= 0
  }

  /** String.substring(begin): fails when begin lies outside 0..|s|. */
  function SubstringFrom(s: string, begin: int): (r: Result<string>)
    ensures r.Ok? <==> 0 <= begin <= |s|
    ensures r.Ok? ==> s == s[..begin] + r.value
  {
    if 0 <= begin <= |s| then Ok(s[begin..]) else Err(IndexOutOfBounds)
  }

  /** String.substring(begin, end): fails unless 0 <= begin <= end <= |s|. */
  function Substring(s: string, begin: int, end: int): (r: Result<string>)
    ensures r.Ok? <==> 0 <= begin <= end <= |s|
    ensures r.Ok? ==> |r.value| == end - begin && s == s[..begin] + r.value + s[end..]
  {
    if 0 <= begin <= end <= |s| then Ok(s[begin..end]) else Err(IndexOutOfBounds)
  }

  /** Java's string conversion of a possibly-null String: null prints as "null". */
  function NullText(s: Option<string>): string {
    s.GetOr("null")
  }

  function DigitChar(d: nat): char
    requires d < 10
  {
    "0123456789"[d]
  }

  /** Decimal digits of a natural number, most significant first. */
  function NatToString(n: nat): (r: string)
    ensures |r| > 0
    ensures forall i :: 0 <= i < |r| ==> '0' <= r[i] <= '9'
    decreases n
  {
    if n < 10 then [DigitChar(n)] else NatToString(n / 10) + [DigitChar(n % 10)]
  }

  /** Integer.toString / Long.toString. */
  function IntToString(n: int): string {
    if n < 0 then "-" + NatToString(-n) else NatToString(n)
  }

  /** The value of a string of decimal digits. */
  function DigitsValue(s: string): nat
    requires forall i :: 0 <= i < |s| ==> '0' <= s[i] <= '9'
  {
    if s == [] then 0 else DigitsValue(s[..|s| - 1]) * 10 + (s[|s| - 1] as int - '0' as int)
  }

  predicate AllDigits(s: string) {
    |s| > 0 && forall i :: 0 <= i < |s| ==> '0' <= s[i] <= '9'
  }

  /** The digit characters read back as the number they were written from. */
  lemma {:induction false} DigitsValueOfNatToString(n: nat)
    ensures DigitsValue(NatToString(n)) == n
    decreases n
  {
    var d := n % 10;
    assert DigitChar(d) as int - '0' as int == d by {
      assert "0123456789"[d] as int == '0' as int + d;
    }
    if n >= 10 {
      var s := NatToString(n / 10);
      DigitsValueOfNatToString(n / 10);
      assert (s + [DigitChar(d)])[..|s|] == s;
    }
  }

  /** A digit string contains no '.'. */
  lemma DigitsHaveNoDot(s: string)
    requires AllDigits(s)
    ensures IndexOf(s, ".") == -1
  {
    forall j
      ensures !OccursAt(s, ".", j)
    {
      if 0 <= j < |s| {
        assert s[j..j + 1][0] == s[j];
      }
    }
  }

  /** String.trim() skips the characters up to U+0020 from index i on ... */
  function LeadFrom(s: string, i: nat): (r: nat)
    requires i <= |s|
    ensures i <= r <= |s|
    ensures forall k :: i <= k < r ==> s[k] <= ' '
    ensures r == |s| || s[r] > ' '
    decreases |s| - i
  {
    if i < |s| && s[i] <= ' ' then LeadFrom(s, i + 1) else i
  }

  /** ... and back from index j, never below lo. */
  function TrailTo(s: string, lo: nat, j: nat): (r: nat)
    requires lo <= j <= |s|
    ensures lo <= r <= j
    ensures forall k :: r <= k < j ==> s[k] <= ' '
    ensures r == lo || s[r - 1] > ' '
    decreases j
  {
    if j > lo && s[j - 1] <= ' ' then TrailTo(s, lo, j - 1) else j
  }

  /** String.trim(): s without its leading and trailing characters up to U+0020. */
  function Trim(s: string): (r: string)
    ensures r == [] || (r[0] > ' ' && r[|r| - 1] > ' ')
    ensures exists i, j :: 0 <= i <= j <= |s| && s[i..j] == r
              && (forall k :: 0 <= k < i ==> s[k] <= ' ')
              && (forall k :: j <= k < |s| ==> s[k] <= ' ')
  {
    var i := LeadFrom(s, 0);
    s[i..TrailTo(s, i, |s|)]
  }

  /** Those properties determine Trim: any slice of s with blank outside and
      non-blank ends is Trim(s). */
  lemma TrimUnique(s: string, i: int, j: int)
    requires 0 <= i <= j <= |s|
    requires forall k :: 0 <= k < i ==> s[k] <= ' '
    requires forall k :: j <= k < |s| ==> s[k] <= ' '
    requires i == j || (s[i] > ' ' && s[j - 1] > ' ')
    ensures Trim(s) == s[i..j]
  {
    var i' := LeadFrom(s, 0);
    var j' := TrailTo(s, i', |s|);
    if i < j {
      assert i' == i;
      assert j' == j;
    } else {
      assert forall k :: 0 <= k < |s| ==> s[k] <= ' ';
      assert i' == |s|;
    }
  }

  /** Text without blanks at either end is its own Trim. */
  lemma TrimOfUnpadded(t: string)
    requires t == [] || (t[0] > ' ' && t[|t| - 1] > ' ')
    ensures Trim(t) == t
  {
    TrimUnique(t, 0, |t|);
    assert t[0..|t|] == t;
  }

  /** A leading blank does not change Trim. */
  lemma TrimSkipsLeadingBlank(c: char, s: string)
    requires c <= ' '
    ensures Trim([c] + s) == Trim(s)
  {
    assert ([c] + s)[1..] == s;
    TrimOfTail([c] + s);
  }

  lemma TrimOfTail(u: string)
    requires |u| > 0 && u[0] <= ' '
    ensures Trim(u) == Trim(u[1..])
  {
    var s := u[1..];
    var i := LeadFrom(s, 0);
    TrimOfTailAt(u, s, i, TrailTo(s, i, |s|), Trim(s));
  }

  /** Shifting the bounds of Trim(s) by one gives Trim(u) when s is u without its blank head. */
  lemma TrimOfTailAt(u: string, s: string, i: int, j: int, r: string)
    requires |u| > 0 && u[0] <= ' ' && s == u[1..]
    requires 0 <= i <= j <= |s| && s[i..j] == r
    requires r == [] || (r[0] > ' ' && r[|r| - 1] > ' ')
    requires forall k :: 0 <= k < i ==> s[k] <= ' '
    requires forall k :: j <= k < |s| ==> s[k] <= ' '
    ensures Trim(u) == r
  {
    assert u[i + 1..j + 1] == s[i..j];
    forall k | 0 <= k < i + 1
      ensures u[k] <= ' '
    {
      if k > 0 { assert u[k] == s[k - 1]; }
    }
    forall k | j + 1 <= k < |u|
      ensures u[k] <= ' '
    {
      assert u[k] == s[k - 1];
    }
    assert i == j || (u[i + 1] > ' ' && u[j] > ' ') by {
      if i < j {
        assert u[i + 1] == s[i] == r[0];
        assert u[j] == s[j - 1] == r[|r| - 1];
      }
    }
    TrimUnique(u, i + 1, j + 1);
  }

  /** The parts of [c] + x. */
  lemma ShapeOfSigned(c: char, x: string)
    requires |x| > 0
    ensures ([c] + x)[0] == c && ([c] + x)[1..] == x && ([c] + x)[|x|] == x[|x| - 1]
  {
  }

  /** The ends and the separator of p + sep + q. */
  lemma ShapeOfJoin(p: string, sep: string, q: string)
    requires |p| > 0 && |sep| == 1 && |q| > 0
    ensures var t := p + sep + q;
      t[0] == p[0] && t[|p|] == sep[0] && t[|t| - 1] == q[|q| - 1]
  {
  }

  /** Dropping the first character of [c] + x + y + z leaves x + y + z. */
  lemma DropFirstOfFour(c: char, x: string, y: string, z: string)
    ensures ([c] + x + y + z)[1..] == x + y + z
  {
    assert [c] + x + y + z == [c] + (x + y + z);
  }

  /** A concatenation with a fixed prefix and suffix determines its middle part. */
  lemma CancelAround(p: string, x: string, y: string, q: string)
    requires p + x + q == p + y + q
    ensures x == y
  {
    assert |x| == |y|;
    forall i | 0 <= i < |x| ensures x[i] == y[i] {
      assert (p + x + q)[|p| + i] == x[i];
      assert (p + y + q)[|p| + i] == y[i];
    }
  }

  /** A string always contains what was just appended to it. */
  lemma {:induction false} ContainsAppended(s: string, t: string)
    ensures Contains(s + t, t)
  {
    assert OccursAt(s + t, t, |s|) by {
      assert (s + t)[|s|..|s| + |t|] == t;
    }
  }

  /** Occurrences in a prefix survive appending. */
  lemma OccursAtPrefix(s: string, u: string, t: string, i: int)
    requires OccursAt(s, t, i)
    ensures OccursAt(s + u, t, i)
  {
    assert (s + u)[i..i + |t|] == s[i..i + |t|];
  }

  /** When s has no occurrence of the one-character t, the first occurrence in s + u is |s| plus the first in u. */
  lemma IndexOfAfterPrefix(s: string, u: string, c: char)
    requires forall j :: 0 <= j < |s| ==> s[j] != c
    ensures IndexOf(s + u, [c]) == if IndexOf(u, [c]) == -1 then -1 else |s| + IndexOf(u, [c])
  {
    var t := [c];
    var w := s + u;
    forall j | OccursAt(w, t, j) ensures j >= |s| && OccursAt(u, t, j - |s|) {
      assert w[j..j + 1] == [c];
      assert w[j] == c;
      assert u[(j - |s|)..(j - |s|) + 1] == w[j..j + 1];
    }
    forall j | OccursAt(u, t, j) ensures OccursAt(w, t, |s| + j) {
      assert w[|s| + j..|s| + j + 1] == u[j..j + 1];
    }
    var k := IndexOf(u, t);
    var r := IndexOf(w, t);
    if k != -1 {
      assert OccursAt(w, t, |s| + k);
    }
  }

  /** In s + [c] + rest, with c absent from s, the first c is the one after s. */
  lemma FirstDelimiter(s: string, c: char, rest: string)
    requires c !in s
    ensures IndexOf(s + [c] + rest, [c]) == |s|
  {
    assert forall j :: 0 <= j < |s| ==> s[j] != c;
    IndexOfAfterPrefix(s, [c] + rest, c);
    assert OccursAt([c] + rest, [c], 0);
    assert s + [c] + rest == s + ([c] + rest);
  }
}
