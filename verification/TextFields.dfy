/**
  What the splitter of error texts does, in terms of Unicode: white space is the encodings of the
  white-space code points, and splitting finds the fields however such white space separates them.
 */
module TextFields {
  import opened ErrorText

  // ----- which bytes are white space

  /** The UTF-8 encoding of a code point of the basic plane (section 3 of RFC 3629). */
  function Utf8(rune: nat): (bytes: Text)
    requires rune < 0x10000
  {
    if rune < 0x80 then [rune]
    else if rune < 0x800 then [0xC0 + rune / 64, 0x80 + rune % 64]
    else [0xE0 + rune / 4096, 0x80 + rune / 64 % 64, 0x80 + rune % 64]
  }

  /** The code points with the Unicode property White_Space. */
  predicate IsSpaceRune(rune: nat) {
    || 9 <= rune <= 13 || rune == 0x20 || rune == 0x85 || rune == 0xA0 || rune == 0x1680
    || 0x2000 <= rune <= 0x200A || rune == 0x2028 || rune == 0x2029 || rune == 0x202F
    || rune == 0x205F || rune == 0x3000
  }

  ghost predicate StartsWithRune(s: Text, rune: nat) {
    rune < 0x10000 && IsSpaceRune(rune) && Utf8(rune) <= s
  }

  lemma {:induction false} RuneIsSpace(s: Text, rune: nat)
    requires StartsWithRune(s, rune)
    ensures SpaceWidth(s) == |Utf8(rune)|
  {
    var u := Utf8(rune);
    assert forall i :: 0 <= i < |u| ==> s[i] == u[i];
  }

  /** The code point of the white space at the front of a text. */
  function FrontRune(s: Text): (rune: int)
    requires SpaceWidth(s) > 0
  {
    var lead: int := s[0];
    if SpaceWidth(s) == 1 then lead
    else
      var second: int := s[1];
      if SpaceWidth(s) == 2 then (lead - 0xC0) * 64 + (second - 0x80)
      else
        var third: int := s[2];
        (lead - 0xE0) * 4096 + (second - 0x80) * 64 + (third - 0x80)
  }

  lemma {:induction false} SpaceIsRune(s: Text)
    requires SpaceWidth(s) > 0
    ensures FrontRune(s) >= 0 && StartsWithRune(s, FrontRune(s))
  {
  }

  /** A text starts with white space exactly when it starts with the encoding of a white-space code point. */
  lemma {:induction false} SpaceExactly(s: Text)
    ensures SpaceWidth(s) > 0 <==> exists rune: nat :: StartsWithRune(s, rune)
  {
    if SpaceWidth(s) > 0 {
      SpaceIsRune(s);
    }
    if rune: nat :| StartsWithRune(s, rune) {
      RuneIsSpace(s, rune);
    }
  }

  // ----- splitting, however the fields are separated

  /** A run of code points. */
  type Runes = seq<nat>

  ghost predicate AllSpaceRunes(runes: Runes) {
    forall i :: 0 <= i < |runes| ==> runes[i] < 0x10000 && IsSpaceRune(runes[i])
  }

  function Encoded(runes: Runes): (s: Text)
    requires forall i :: 0 <= i < |runes| ==> runes[i] < 0x10000
  {
    if runes == [] then [] else Utf8(runes[0]) + Encoded(runes[1..])
  }

  lemma {:induction false} WidthOfPrefix(c: Text, s: Text)
    requires SpaceWidth(c) > 0
    ensures SpaceWidth(c + s) == SpaceWidth(c)
  {
    assert forall i :: 0 <= i < |c| ==> (c + s)[i] == c[i];
  }

  lemma {:induction false} SkipOne(c: Text, s: Text)
    requires c != [] && SpaceWidth(c) == |c|
    ensures Fields(c + s) == Fields(s)
  {
    WidthOfPrefix(c, s);
    assert (c + s)[|c|..] == s;
  }

  lemma {:induction false} EncodedFirst(runes: Runes, s: Text)
    requires AllSpaceRunes(runes) && runes != []
    ensures Encoded(runes) + s == Utf8(runes[0]) + (Encoded(runes[1..]) + s)
  {
  }

  lemma {:induction false} SkipBlank(runes: Runes, s: Text)
    requires AllSpaceRunes(runes)
    ensures Fields(Encoded(runes) + s) == Fields(s)
    decreases |runes|
  {
    if runes == [] {
      assert Encoded(runes) + s == s;
      return;
    }
    var c, more := Utf8(runes[0]), Encoded(runes[1..]) + s;
    assert Fields(more) == Fields(s) by { SkipBlank(runes[1..], s); }
    assert Fields(c + more) == Fields(more) by {
      RuneIsSpace(c, runes[0]);
      SkipOne(c, more);
    }
    EncodedFirst(runes, s);
  }

  lemma {:induction false} SpaceAtBefore(f: Text, b: Text, i: nat)
    requires i < |f| && (b == [] || SpaceWidth(b) > 0)
    ensures SpaceAt(f + b, i) == SpaceAt(f, i)
  {
    var s, t := (f + b)[i..], f[i..];
    assert s == t + b;
  }

  lemma {:induction false} FieldThen(f: Text, b: Text)
    requires IsField(f) && (b == [] || SpaceWidth(b) > 0)
    ensures Fields(f + b) == [f] + Fields(b)
  {
    var s := f + b;
    assert s == s[0..];
    forall i: nat | i < |f| ensures !SpaceAt(s, i) { SpaceAtBefore(f, b, i); }
    assert !SpaceAt(s, 0);
    assert s[|f|..] == b && s[..|f|] == f;
    assert b != [] ==> SpaceAt(s, |f|);
    assert FieldLength(s) == |f|;
  }

  /** The gaps are white space, and only the last may be empty. */
  ghost predicate Gaps(gaps: seq<Runes>) {
    forall k :: 0 <= k < |gaps| ==> AllSpaceRunes(gaps[k]) && (k < |gaps| - 1 ==> gaps[k] != [])
  }

  /** The fields, each followed by its gap. */
  function Spaced(fs: seq<Text>, gaps: seq<Runes>): (s: Text)
    requires |gaps| == |fs| && forall k, i :: 0 <= k < |gaps| && 0 <= i < |gaps[k]| ==> gaps[k][i] < 0x10000
  {
    if fs == [] then [] else fs[0] + (Encoded(gaps[0]) + Spaced(fs[1..], gaps[1..]))
  }

  lemma {:induction false} GapIsSpace(gap: Runes, s: Text)
    requires AllSpaceRunes(gap) && gap != []
    ensures SpaceWidth(Encoded(gap) + s) > 0
  {
    RuneIsSpace(Utf8(gap[0]), gap[0]);
    WidthOfPrefix(Utf8(gap[0]), Encoded(gap[1..]) + s);
    assert Encoded(gap) + s == Utf8(gap[0]) + (Encoded(gap[1..]) + s);
  }

  lemma {:induction false} FieldsOfSpaced(fs: seq<Text>, gaps: seq<Runes>)
    requires |gaps| == |fs| && AllFields(fs) && Gaps(gaps)
    ensures Fields(Spaced(fs, gaps)) == fs
    decreases |fs|
  {
    if fs == [] {
      return;
    }
    var g, rest := gaps[0], Spaced(fs[1..], gaps[1..]);
    FieldsOfSpaced(fs[1..], gaps[1..]);
    if g == [] {
      assert |fs| == 1 && Encoded(g) + rest == [];
    } else {
      GapIsSpace(g, rest);
    }
    FieldThen(fs[0], Encoded(g) + rest);
    SkipBlank(g, rest);
  }

  /** Splitting finds the fields, whatever white space precedes, separates or follows them. */
  lemma {:induction false} FieldsRecovered(lead: Runes, fs: seq<Text>, gaps: seq<Runes>)
    requires AllSpaceRunes(lead) && |gaps| == |fs| && AllFields(fs) && Gaps(gaps)
    ensures Fields(Encoded(lead) + Spaced(fs, gaps)) == fs
  {
    SkipBlank(lead, Spaced(fs, gaps));
    FieldsOfSpaced(fs, gaps);
  }

  /** The white space at the front of a text, and the rest. */
  lemma {:induction false} BlankFront(s: Text) returns (lead: Runes, rest: Text)
    ensures AllSpaceRunes(lead) && s == Encoded(lead) + rest && (rest == [] || SpaceWidth(rest) == 0)
    ensures SpaceWidth(s) > 0 ==> lead != []
    decreases |s|
  {
    var n := SpaceWidth(s);
    if n == 0 {
      lead, rest := [], s;
      return;
    }
    var more;
    more, rest := BlankFront(s[n..]);
    var rune := FrontSpace(s);
    lead := [rune] + more;
    assert lead[1..] == more;
    EncodedFirst(lead, rest);
  }

  lemma {:induction false} FrontSpace(s: Text) returns (rune: nat)
    requires SpaceWidth(s) > 0
    ensures rune < 0x10000 && IsSpaceRune(rune) && s == Utf8(rune) + s[SpaceWidth(s)..]
  {
    SpaceIsRune(s);
    rune := FrontRune(s);
    RuneIsSpace(s, rune);
  }

  lemma {:induction false} FieldAtFront(s: Text) returns (f: Text, rest: Text)
    requires s != [] && SpaceWidth(s) == 0
    ensures IsField(f) && s == f + rest && |rest| < |s| && (rest == [] || SpaceWidth(rest) > 0)
  {
    assert s == s[0..];
    var n := FieldLength(s);
    f, rest := s[..n], s[n..];
    forall i: nat | i < n ensures !SpaceAt(f, i) { SpaceAtPrefix(s, n, i); }
  }

  /** Every text is a list of fields with white space before, between and after them. */
  lemma {:induction false} EveryTextIsSpaced(s: Text) returns (lead: Runes, fs: seq<Text>, gaps: seq<Runes>)
    ensures AllSpaceRunes(lead) && |gaps| == |fs| && AllFields(fs) && Gaps(gaps)
    ensures s == Encoded(lead) + Spaced(fs, gaps)
    ensures SpaceWidth(s) > 0 ==> lead != []
    decreases |s|
  {
    var rest;
    lead, rest := BlankFront(s);
    fs, gaps := [], [];
    if rest == [] {
      return;
    }
    var f, tail := FieldAtFront(rest);
    var gap, more, between := EveryTextIsSpaced(tail);
    fs, gaps := [f] + more, [gap] + between;
    assert fs[1..] == more && gaps[1..] == between;
  }
}
