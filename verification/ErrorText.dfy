/**
  Error compaction: `compactErrorText` of internal/benchrunner/stats.go and
  internal/benchmarkrun/coordinator.go (the two copies are the same code).

  Go strings are byte sequences, `len` counts bytes and slicing cuts bytes, so the model
  works on bytes.  `strings.Fields` splits around Unicode white space.  Every byte that can
  start a white-space character is a UTF-8 lead byte or ASCII, and no such byte occurs inside
  another well-formed character, so scanning byte by byte finds the same white space as
  decoding characters does, also in ill-formed text.
 */
module ErrorText {

  type Byte = b: int | 0 <= b < 256
  type Text = seq<Byte>

  const LIMIT: nat := 160
  const SPACE: Byte := 0x20
  const ELLIPSIS: Text := [0x2E, 0x2E, 0x2E]

  /** The bytes of "context canceled", the text of Go's context.Canceled. */
  const CANCELED_TEXT: Text :=
    [0x63, 0x6F, 0x6E, 0x74, 0x65, 0x78, 0x74, 0x20, 0x63, 0x61, 0x6E, 0x63, 0x65, 0x6C, 0x65, 0x64]

  /** A Go error: its text, and whether errors.Is(err, context.Canceled) holds of it. */
  datatype Failure = Failure(text: Text, canceled: bool)

  /** context.Canceled itself. */
  const CANCELED: Failure := Failure(CANCELED_TEXT, true)

  /** The width in bytes of the white-space character at the front of `s`, 0 if there is none. */
  function SpaceWidth(s: Text): (w: nat)
    ensures w <= |s|
    ensures w <= 3
  {
    if |s| >= 1 && (9 <= s[0] <= 13 || s[0] == 0x20) then 1
    else if |s| >= 2 && s[0] == 0xC2 && (s[1] == 0x85 || s[1] == 0xA0) then 2
    else if |s| >= 3 && s[0] == 0xE1 && s[1] == 0x9A && s[2] == 0x80 then 3
    else if |s| >= 3 && s[0] == 0xE2 && s[1] == 0x80
         && (0x80 <= s[2] <= 0x8A || s[2] == 0xA8 || s[2] == 0xA9 || s[2] == 0xAF) then 3
    else if |s| >= 3 && s[0] == 0xE2 && s[1] == 0x81 && s[2] == 0x9F then 3
    else if |s| >= 3 && s[0] == 0xE3 && s[1] == 0x80 && s[2] == 0x80 then 3
    else 0
  }

  predicate SpaceAt(s: Text, i: nat)
    requires i <= |s|
  {
    SpaceWidth(s[i..]) > 0
  }

  /** The length of the longest prefix of `s` with no white space in it. */
  function FieldLength(s: Text): (n: nat)
    ensures n <= |s|
    ensures n < |s| ==> SpaceAt(s, n)
    ensures forall i: nat :: i < n ==> !SpaceAt(s, i)
  {
    if s == [] || SpaceWidth(s) > 0 then
      assert s == s[0..];
      0
    else
      var n := 1 + FieldLength(s[1..]);
      assert s == s[0..];
      assert forall i: nat :: 0 < i <= |s| ==> SpaceAt(s, i) == SpaceAt(s[1..], i - 1) by {
        assert forall i: nat :: 0 < i <= |s| ==> s[i..] == s[1..][i - 1..];
      }
      n
  }

  /** strings.Fields: the maximal runs of bytes between white space. */
  function Fields(s: Text): (fs: seq<Text>)
    decreases |s|
  {
    if s == [] then []
    else if SpaceWidth(s) > 0 then Fields(s[SpaceWidth(s)..])
    else
      var n := FieldLength(s);
      [s[..n]] + Fields(s[n..])
  }

  /** strings.Join(fs, " "). */
  function Join(fs: seq<Text>): (s: Text) {
    if fs == [] then []
    else if |fs| == 1 then fs[0]
    else fs[0] + [SPACE] + Join(fs[1..])
  }

  /** compactErrorText. */
  function Compact(message: Text): (c: Text)
    ensures |c| <= LIMIT
  {
    var compact := Join(Fields(message));
    if |compact| <= LIMIT then compact else compact[..LIMIT - 3] + ELLIPSIS
  }

  /** A nonempty run of bytes with no white space in it. */
  ghost predicate IsField(f: Text) {
    f != [] && forall i: nat :: i < |f| ==> !SpaceAt(f, i)
  }

  ghost predicate AllFields(fs: seq<Text>) {
    forall k :: 0 <= k < |fs| ==> IsField(fs[k])
  }

  /** White space occurs only as single blanks strictly inside the text. */
  ghost predicate Normal(s: Text) {
    forall i: nat :: i < |s| && SpaceAt(s, i) ==>
      s[i] == SPACE && 0 < i && i + 1 < |s| && SpaceWidth(s[i + 1..]) == 0
  }

  /** Bytes that neither continue nor start a multi-byte blank leave earlier positions alone. */
  lemma {:induction false} SpaceAtAppend(a: Text, b: Text, i: nat)
    requires i < |a|
    requires b == [] || b[0] == SPACE || b[0] == ELLIPSIS[0]
    ensures SpaceAt(a + b, i) == SpaceAt(a, i)
  {
  }

  lemma {:induction false} SpaceAtPrefix(s: Text, n: nat, i: nat)
    requires i < n <= |s|
    ensures SpaceAt(s[..n], i) ==> SpaceAt(s, i)
  {
  }

  lemma {:induction false} FieldsAreFields(s: Text)
    ensures AllFields(Fields(s))
    decreases |s|
  {
    if s == [] {
    } else if SpaceWidth(s) > 0 {
      FieldsAreFields(s[SpaceWidth(s)..]);
    } else {
      var n := FieldLength(s);
      assert s == s[0..];
      FieldsAreFields(s[n..]);
      forall i: nat | i < n ensures !SpaceAt(s[..n], i) { SpaceAtPrefix(s, n, i); }
    }
  }

  /** A field in front of a blank is exactly what the splitter cuts off. */
  lemma {:induction false} FieldLengthOfField(f: Text, b: Text)
    requires IsField(f)
    requires b == [] || b[0] == SPACE
    ensures FieldLength(f + b) == |f|
    ensures SpaceWidth(f + b) == 0
  {
    var s := f + b;
    assert s == s[0..];
    forall i: nat | i < |f| ensures !SpaceAt(s, i) { SpaceAtAppend(f, b, i); }
    assert !SpaceAt(s, 0);
    if b != [] {
      assert s[|f|..] == b;
      assert SpaceAt(s, |f|);
    }
  }

  lemma {:induction false} FieldsOne(f: Text)
    requires IsField(f)
    ensures Fields(f) == [f]
  {
    FieldLengthOfField(f, []);
    assert f + [] == f;
    assert f[|f|..] == [] && f[..|f|] == f;
  }

  lemma {:induction false} FieldsCons(f: Text, rest: Text)
    requires IsField(f)
    ensures Fields(f + ([SPACE] + rest)) == [f] + Fields(rest)
  {
    var s := f + ([SPACE] + rest);
    FieldLengthOfField(f, [SPACE] + rest);
    assert s[..|f|] == f && s[|f|..] == [SPACE] + rest;
    assert ([SPACE] + rest)[1..] == rest;
  }

  lemma {:induction false} JoinCons(f: Text, fs: seq<Text>)
    requires fs != []
    ensures Join([f] + fs) == f + ([SPACE] + Join(fs))
  {
  }

  /** Splitting undoes joining, for every list of nonempty white-space-free fields. */
  lemma {:induction false} FieldsOfJoin(fs: seq<Text>)
    requires AllFields(fs)
    ensures Fields(Join(fs)) == fs
    decreases |fs|
  {
    if fs == [] {
    } else if |fs| == 1 {
      FieldsOne(fs[0]);
    } else {
      assert fs == [fs[0]] + fs[1..];
      FieldsOfJoin(fs[1..]);
      JoinCons(fs[0], fs[1..]);
      FieldsCons(fs[0], Join(fs[1..]));
    }
  }

  lemma {:induction false} JoinIsNormal(fs: seq<Text>)
    requires AllFields(fs)
    ensures Normal(Join(fs))
    ensures fs != [] ==> Join(fs) != [] && !SpaceAt(Join(fs), 0)
    decreases |fs|
  {
    if |fs| > 1 {
      var rest := Join(fs[1..]);
      var s := Join(fs);
      var n := |fs[0]|;
      assert s == fs[0] + ([SPACE] + rest);
      JoinIsNormal(fs[1..]);
      assert forall i: nat :: n < i <= |s| ==> s[i..] == rest[i - n - 1..];
      forall i: nat | i < n ensures !SpaceAt(s, i) { SpaceAtAppend(fs[0], [SPACE] + rest, i); }
      forall i: nat | i < |s| && SpaceAt(s, i)
        ensures s[i] == SPACE && 0 < i && i + 1 < |s| && !SpaceAt(s, i + 1)
      {
        if i == n {
          assert s[i + 1..] == rest[0..];
        } else {
          assert SpaceAt(rest, i - n - 1);
          assert !SpaceAt(rest, i - n - 1 + 1);
          assert s[i + 1..] == rest[i - n - 1 + 1..];
        }
      }
    }
  }

  lemma {:induction false} DropNormal(s: Text, n: nat)
    requires Normal(s) && n < |s| && !SpaceAt(s, n)
    ensures Normal(s[n..])
  {
  }

  /** A nonempty normal text is one field, or a field, a blank and a nonempty normal text. */
  lemma {:induction false} NormalSplits(s: Text) returns (f: Text, rest: Text)
    requires Normal(s) && s != []
    ensures IsField(f)
    ensures rest == [] ==> s == f
    ensures rest != [] ==> s == f + ([SPACE] + rest) && Normal(rest)
  {
    assert !SpaceAt(s, 0);
    var n := FieldLength(s);
    f := s[..n];
    forall i: nat | i < n ensures !SpaceAt(f, i) { SpaceAtPrefix(s, n, i); }
    if n == |s| {
      rest := [];
    } else {
      assert SpaceAt(s, n);
      rest := s[n + 1..];
      DropNormal(s, n + 1);
      assert s == f + ([SPACE] + rest);
    }
  }

  /** Normal texts are the fixed points of splitting and joining. */
  lemma {:induction false} NormalIsFixed(s: Text)
    requires Normal(s)
    ensures Join(Fields(s)) == s
    decreases |s|
  {
    if s != [] {
      var f, rest := NormalSplits(s);
      if rest == [] {
        FieldsOne(s);
      } else {
        NormalIsFixed(rest);
        FieldsCons(f, rest);
        JoinCons(f, Fields(rest));
      }
    }
  }

  lemma {:induction false} CutSpace(s: Text, n: nat, i: nat)
    requires n <= |s| && i <= n + 3
    ensures SpaceAt(s[..n] + ELLIPSIS, i) ==> i < n && SpaceAt(s, i)
  {
  }

  lemma {:induction false} CutIsNormal(s: Text, n: nat)
    requires Normal(s) && 0 < n <= |s|
    ensures Normal(s[..n] + ELLIPSIS)
  {
    var t := s[..n] + ELLIPSIS;
    forall i: nat | i < |t| && SpaceAt(t, i)
      ensures t[i] == SPACE && 0 < i && i + 1 < |t| && !SpaceAt(t, i + 1)
    {
      CutSpace(s, n, i);
      CutSpace(s, n, i + 1);
    }
  }

  /** A compacted message is at most 160 bytes of fields separated by single blanks. */
  lemma {:induction false} CompactIsNormal(message: Text)
    ensures Normal(Compact(message))
  {
    FieldsAreFields(message);
    JoinIsNormal(Fields(message));
    var compact := Join(Fields(message));
    if |compact| > LIMIT {
      CutIsNormal(compact, LIMIT - 3);
    }
  }

  /** Compacting changes a text exactly when it is too long or not normal. */
  lemma {:induction false} CompactFixesExactly(s: Text)
    ensures Compact(s) == s <==> Normal(s) && |s| <= LIMIT
  {
    if Normal(s) {
      NormalIsFixed(s);
    }
    CompactIsNormal(s);
  }

  /** Compacting twice, once in the run's statistics and once in the results, changes nothing. */
  lemma {:induction false} CompactIdempotent(message: Text)
    ensures Compact(Compact(message)) == Compact(message)
  {
    CompactIsNormal(message);
    CompactFixesExactly(Compact(message));
  }

  /** The text is what some message compacts to. */
  ghost predicate IsCompact(t: Text) {
    exists message: Text :: Compact(message) == t
  }

  lemma {:induction false} EmptyIsCompact()
    ensures IsCompact([])
  {
    assert Compact([]) == [];
  }

  /** Compact texts are the normal texts of at most 160 bytes, the fixed points of compaction. */
  lemma {:induction false} CompactExactly(t: Text)
    ensures IsCompact(t) <==> Normal(t) && |t| <= LIMIT
    ensures IsCompact(t) <==> Compact(t) == t
  {
    CompactFixesExactly(t);
    if IsCompact(t) {
      var message :| Compact(message) == t;
      CompactIdempotent(message);
    }
  }

  /** The compacted text carries all the fields, in order, whenever it is not cut. */
  lemma {:induction false} CompactKeepsFields(message: Text)
    ensures |Join(Fields(message))| <= LIMIT ==> Fields(Compact(message)) == Fields(message)
  {
    FieldsAreFields(message);
    FieldsOfJoin(Fields(message));
  }

  /** Printable ASCII other than the blank is a field. */
  lemma {:induction false} PlainIsField(f: Text)
    requires f != [] && forall i :: 0 <= i < |f| ==> 0x21 <= f[i] <= 0x7E
    ensures IsField(f)
  {
    forall i: nat | i < |f| ensures !SpaceAt(f, i) {
      assert f[i..][0] == f[i];
    }
  }

  /** The text of a cancellation is compact as it is. */
  lemma {:induction false} CanceledIsCompact()
    ensures Compact(CANCELED_TEXT) == CANCELED_TEXT
  {
    var context, canceled := CANCELED_TEXT[..7], CANCELED_TEXT[8..];
    PlainIsField(context);
    PlainIsField(canceled);
    FieldsOne(canceled);
    FieldsCons(context, canceled);
    JoinCons(context, [canceled]);
    assert CANCELED_TEXT == context + ([SPACE] + canceled);
  }

  /** What a text that is too long is cut to: 157 bytes and three dots. */
  lemma {:induction false} CutExactly(message: Text, joined: Text)
    requires joined == Join(Fields(message))
    ensures |joined| <= 160 ==> Compact(message) == joined
    ensures |joined| > 160 ==> Compact(message) == joined[..157] + [0x2E, 0x2E, 0x2E]
  {
  }
}
