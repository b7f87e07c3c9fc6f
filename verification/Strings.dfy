/** The parts of Go's strings package that the models rely on. */
module Strings {

  /** unicode.IsSpace. */
  predicate IsSpace(c: char) {
    || '\t' <= c <= '\r' || c == ' ' || c == '\U{0085}' || c == '\U{00A0}' || c == '\U{1680}'
    || '\U{2000}' <= c <= '\U{200A}' || c == '\U{2028}' || c == '\U{2029}' || c == '\U{202F}'
    || c == '\U{205F}' || c == '\U{3000}'
  }

  function TrimLeft(s: string): (r: string)
    ensures r != [] ==> !IsSpace(r[0])
    ensures |r| <= |s|
  {
    if s != [] && IsSpace(s[0]) then TrimLeft(s[1..]) else s
  }

  function TrimRight(s: string): (r: string)
    ensures r <= s
    ensures r != [] ==> !IsSpace(r[|r| - 1])
  {
    if s != [] && IsSpace(s[|s| - 1]) then TrimRight(s[..|s| - 1]) else s
  }

  function TrimSpace(s: string): (r: string)
    ensures r != [] ==> !IsSpace(r[0]) && !IsSpace(r[|r| - 1])
  {
    TrimRight(TrimLeft(s))
  }

  /** Trimming takes off spaces at both ends and nothing else. */
  lemma TrimTakesSpaces(s: string) returns (before: string, after: string)
    ensures s == before + TrimSpace(s) + after
    ensures forall c | c in before + after :: IsSpace(c)
  {
    hide IsSpace, TrimLeft, TrimRight;
    before := LeftSpaces(s);
    after := RightSpaces(TrimLeft(s));
  }

  lemma {:induction false} LeftSpaces(s: string) returns (before: string)
    ensures s == before + TrimLeft(s) && forall c | c in before :: IsSpace(c)
  {
    hide IsSpace;
    before := [];
    if s != [] && IsSpace(s[0]) {
      before := LeftSpaces(s[1..]);
      before := [s[0]] + before;
    }
  }

  lemma {:induction false} RightSpaces(s: string) returns (after: string)
    ensures s == TrimRight(s) + after && forall c | c in after :: IsSpace(c)
  {
    hide IsSpace;
    after := [];
    if s != [] && IsSpace(s[|s| - 1]) {
      after := RightSpaces(s[..|s| - 1]);
      after := after + [s[|s| - 1]];
    }
  }

  /** The trimmed members of a set. */
  ghost function Trims(ids: set<string>): (r: set<string>) {
    set x | x in ids :: TrimSpace(x)
  }

  /** The length of the UTF-8 encoding, which is what Go's len counts. */
  function ByteLength(s: string): (r: nat) {
    if s == [] then 0
    else
      var c := s[0];
      (if c < '\U{0080}' then 1 else if c < '\U{0800}' then 2 else if c < '\U{10000}' then 3 else 4)
           + ByteLength(s[1..])
  }

  /** Lengths add up. */
  lemma {:induction false} ByteLengthConcat(a: string, b: string)
    ensures ByteLength(a + b) == ByteLength(a) + ByteLength(b)
  {
    if a == [] {
      assert a + b == b;
    } else {
      ByteLengthConcat(a[1..], b);
      assert (a + b)[1..] == a[1..] + b;
    }
  }

  /** One to four bytes carry 7, 11, 16 and 21 bits of a character. */
  lemma ByteLengthOne(c: char)
    ensures ByteLength([c]) <= 1 <==> c as int < 0x80
    ensures ByteLength([c]) <= 2 <==> c as int < 0x800
    ensures ByteLength([c]) <= 3 <==> c as int < 0x10000
    ensures 1 <= ByteLength([c]) <= 4
  {
    assert [c][1..] == [];
  }

  /** Strings compare by code point, as Go compares their bytes. */
  predicate Less(a: string, b: string) {
    if b == [] then false
    else if a == [] then true
    else a[0] < b[0] || (a[0] == b[0] && Less(a[1..], b[1..]))
  }

  lemma SamePrefix(a: string, b: string, k: nat)
    requires k <= |a| && k <= |b| && a[..k] == b[..k]
    ensures k > 0 ==> a[0] == b[0]
  {
    if k > 0 {
      assert a[..k][0] == a[0] && b[..k][0] == b[0];
    }
  }

  /** A smaller string is a proper prefix, or smaller at the first place where the two differ. */
  lemma {:induction false} LessExactly(a: string, b: string)
    ensures Less(a, b) <==>
      exists k :: 0 <= k <= |a| && k < |b| && a[..k] == b[..k] && (k == |a| || a[k] < b[k])
  {
    if a != [] && b != [] && a[0] == b[0] {
      LessExactly(a[1..], b[1..]);
      if Less(a, b) {
        var c, d := a[1..], b[1..];
        var k :| 0 <= k <= |c| && k < |d| && c[..k] == d[..k] && (k == |c| || c[k] < d[k]);
        assert a[..k + 1] == [a[0]] + a[1..][..k] && b[..k + 1] == [b[0]] + b[1..][..k];
      }
      if k :| 0 <= k <= |a| && k < |b| && a[..k] == b[..k] && (k == |a| || a[k] < b[k]) {
        assert k > 0;
        assert a[1..][..k - 1] == a[..k][1..] && b[1..][..k - 1] == b[..k][1..];
      }
    } else if a != [] && b != [] {
      if Less(a, b) {
        assert a[..0] == b[..0];
      }
      if k :| 0 <= k <= |a| && k < |b| && a[..k] == b[..k] && (k == |a| || a[k] < b[k]) {
        SamePrefix(a, b, k);
      }
    } else if b != [] {
      assert a[..0] == b[..0];
    }
  }

  lemma {:induction false} LessLaws(a: string, b: string, c: string)
    ensures !Less(a, a)
    ensures Less(a, b) && Less(b, c) ==> Less(a, c)
    ensures a != b ==> Less(a, b) || Less(b, a)
    ensures !(Less(a, b) && Less(b, a))
  {
    if a != [] && b != [] {
      LessLaws(a[1..], b[1..], if c != [] then c[1..] else c);
      assert a == [a[0]] + a[1..] && b == [b[0]] + b[1..];
    } else if a != [] {
      LessLaws(a[1..], a[1..], a[1..]);
    }
  }
}
