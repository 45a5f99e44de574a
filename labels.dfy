/** The `"u->v"` strings `get_ground_truth` builds with `str(u) + "->" + str(v)`. */
module Labels {
  import opened Dags

  datatype Option<T> = None | Some(value: T)

  predicate IsDigit(c: char) {
    '0' <= c <= '9'
  }

  function DigitChar(x: nat): (c: char)
    requires x < 10
    ensures IsDigit(c) && (c as int) - ('0' as int) == x
  {
    (('0' as int) + x) as char
  }

  /** `str(x)` of a non-negative integer: its decimal digits, no leading zero. */
  function NatToString(x: nat): (s: string)
    ensures |s| >= 1 && forall k :: 0 <= k < |s| ==> IsDigit(s[k])
    ensures s[0] == '0' <==> x == 0
    ensures x == 0 ==> s == "0"
  {
    if x < 10 then [DigitChar(x)] else NatToString(x / 10) + [DigitChar(x % 10)]
  }

  /** The value of a string of decimal digits. */
  function ParseNat(s: string): nat
    requires forall k :: 0 <= k < |s| ==> IsDigit(s[k])
  {
    if s == [] then 0
    else
      var last := s[|s| - 1];
      assert IsDigit(last);
      ParseNat(s[..|s| - 1]) * 10 + ((last as int) - ('0' as int))
  }

  lemma {:induction false} ParseNatToString(x: nat)
    ensures ParseNat(NatToString(x)) == x
  {
    if x >= 10 {
      var s := NatToString(x);
      assert s[..|s| - 1] == NatToString(x / 10);
      ParseNatToString(x / 10);
    }
  }

  /** The length of the longest all-digit prefix of s. */
  function DigitPrefix(s: string): (k: nat)
    ensures k <= |s| && (forall j :: 0 <= j < k ==> IsDigit(s[j])) && (k < |s| ==> !IsDigit(s[k]))
  {
    if s == [] || !IsDigit(s[0]) then 0 else 1 + DigitPrefix(s[1..])
  }

  lemma {:induction false} DigitPrefixOf(digits: string, rest: string)
    requires forall j :: 0 <= j < |digits| ==> IsDigit(digits[j])
    requires rest != [] && !IsDigit(rest[0])
    ensures DigitPrefix(digits + rest) == |digits|
  {
    if digits != [] {
      assert (digits + rest)[1..] == digits[1..] + rest;
      DigitPrefixOf(digits[1..], rest);
    }
  }

  function EdgeLabel(e: Edge): string {
    NatToString(e.src) + "->" + NatToString(e.dst)
  }

  /** Reads `"u->v"` back: digits, the arrow, digits, nothing else. */
  function ParseEdgeLabel(s: string): Option<Edge> {
    var k := DigitPrefix(s);
    if 0 < k && k + 2 < |s| && s[k..k + 2] == "->" && forall j :: k + 2 <= j < |s| ==> IsDigit(s[j])
    then Some(Edge(ParseNat(s[..k]), ParseNat(s[k + 2..])))
    else None
  }

  /** Two non-empty digit strings joined by the arrow read back as the pair
      of their values. */
  lemma LabelShape(u: string, v: string)
    requires |u| >= 1 && forall k :: 0 <= k < |u| ==> IsDigit(u[k])
    requires |v| >= 1 && forall k :: 0 <= k < |v| ==> IsDigit(v[k])
    ensures ParseEdgeLabel(u + "->" + v) == Some(Edge(ParseNat(u), ParseNat(v)))
  {
    var tail := "->" + v;
    var s := u + tail;
    assert s == u + "->" + v;
    DigitPrefixOf(u, tail);
    var k := |u|;
    assert s[..k] == u;
    assert s[k..k + 2] == "->";
    assert s[k + 2..] == v;
    forall j | k + 2 <= j < |s| ensures IsDigit(s[j]) {
      assert s[j] == v[j - k - 2];
    }
  }

  /** Every label reads back as the edge it was made from. */
  lemma LabelRoundTrip(e: Edge)
    ensures ParseEdgeLabel(EdgeLabel(e)) == Some(e)
  {
    LabelShape(NatToString(e.src), NatToString(e.dst));
    ParseNatToString(e.src);
    ParseNatToString(e.dst);
  }

  /** Hence distinct edges get distinct labels. */
  lemma LabelInjective(e: Edge, f: Edge)
    requires EdgeLabel(e) == EdgeLabel(f)
    ensures e == f
  {
    LabelRoundTrip(e);
    LabelRoundTrip(f);
  }
}
