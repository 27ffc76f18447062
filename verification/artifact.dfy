/** The Core ML path artifact: builder, encoder and decoder. */
module Artifacts {
  import opened Bytes
  import opened Regions

  const MAX_ARTIFACT_BYTES: nat := 65536
  const MAX_PATH_BYTES: nat := 4096
  const MAX_NAME_BYTES: nat := 1024
  const MAX_MAPPINGS: nat := 256

  const MAGIC: seq<Byte> := [67, 77, 76, 80]

  // ------------------------------------------------------------------------------------------
  // Strings, as the UTF-8 bytes that hold them.

  predicate Continues(b: Byte) { 0x80 <= b <= 0xBF }

  /** Bytes of the scalar value a string begins with, or zero if it begins with none. */
  function ScalarBytes(s: seq<Byte>): (n: nat)
    requires s != []
    ensures n <= |s|
  {
    if s[0] < 0x80 then 1
    else if |s| >= 2 && 0xC2 <= s[0] <= 0xDF && Continues(s[1]) then 2
    else if |s| >= 3 && Continues(s[1]) && Continues(s[2])
            && 0xE0 <= s[0] <= 0xEF && (s[0] == 0xE0 ==> s[1] >= 0xA0) && (s[0] == 0xED ==> s[1] <= 0x9F) then 3
    else if |s| >= 4 && Continues(s[1]) && Continues(s[2]) && Continues(s[3])
            && 0xF0 <= s[0] <= 0xF4 && (s[0] == 0xF0 ==> s[1] >= 0x90) && (s[0] == 0xF4 ==> s[1] <= 0x8F) then 4
    else 0
  }

  predicate Utf8(s: seq<Byte>)
    decreases |s|
  {
    s == [] || (ScalarBytes(s) > 0 && Utf8(s[ScalarBytes(s)..]))
  }

  /** Unicode scalar values: code points that are not surrogates. */
  predicate Scalar(c: nat) { c < 0xD800 || 0xE000 <= c < 0x11_0000 }

  /** The continuation byte of the low six bits. */
  function Low(c: nat): (b: Byte)
    ensures b == 0x80 + c % 64 && Continues(b)
  {
    var r := c % 64;
    0x80 + r
  }

  function EncodeScalar(c: nat): (s: seq<Byte>)
    requires Scalar(c)
    ensures s != []
  {
    if c < 0x80 then [c]
    else if c < 0x800 then [0xC0 + c / 64, Low(c)]
    else if c < 0x1_0000 then [0xE0 + c / 64 / 64, Low(c / 64), Low(c)]
    else [0xF0 + c / 64 / 64 / 64, Low(c / 64 / 64), Low(c / 64), Low(c)]
  }

  ghost predicate AllScalars(cs: seq<nat>) { forall i | 0 <= i < |cs| :: Scalar(cs[i]) }

  function EncodeAll(cs: seq<nat>): seq<Byte>
    requires AllScalars(cs)
  {
    if cs == [] then [] else EncodeScalar(cs[0]) + EncodeAll(cs[1..])
  }

  lemma ScalarStarts(c: nat, rest: seq<Byte>)
    requires Scalar(c)
    ensures ScalarBytes(EncodeScalar(c) + rest) == |EncodeScalar(c)|
  {}

  lemma SixBits(high: nat, b: Byte) returns (c: nat)
    requires Continues(b)
    ensures c == 64 * high + (b - 0x80) as int && c / 64 == high && Low(c) == b
  {
    c := 64 * high + (b - 0x80) as int;
  }

  lemma ScalarAt(s: seq<Byte>) returns (c: nat)
    requires s != [] && ScalarBytes(s) > 0
    ensures Scalar(c) && EncodeScalar(c) == s[..ScalarBytes(s)]
  {
    hide Low;
    var n := ScalarBytes(s);
    if n == 1 {
      c := s[0];
    } else if n == 2 {
      c := SixBits(s[0] - 0xC0, s[1]);
    } else if n == 3 {
      var high := SixBits(s[0] - 0xE0, s[1]);
      c := SixBits(high, s[2]);
    } else {
      var high := SixBits(s[0] - 0xF0, s[1]);
      var middle := SixBits(high, s[2]);
      c := SixBits(middle, s[3]);
    }
  }

  lemma {:induction false} Decoded(s: seq<Byte>) returns (cs: seq<nat>)
    requires Utf8(s)
    ensures AllScalars(cs) && EncodeAll(cs) == s
    decreases |s|
  {
    if s == [] {
      cs := [];
    } else {
      hide ScalarBytes, EncodeScalar, Scalar;
      var c := ScalarAt(s);
      var rest := Decoded(s[ScalarBytes(s)..]);
      cs := [c] + rest;
      assert cs[1..] == rest;
    }
  }

  lemma {:induction false} EncodedIsUtf8(cs: seq<nat>)
    requires AllScalars(cs)
    ensures Utf8(EncodeAll(cs))
  {
    if cs != [] {
      hide ScalarBytes, EncodeScalar;
      var head, rest := EncodeScalar(cs[0]), EncodeAll(cs[1..]);
      EncodedIsUtf8(cs[1..]);
      ScalarStarts(cs[0], rest);
      assert (head + rest)[|head|..] == rest;
    }
  }

  /** The byte test accepts exactly the encodings of sequences of Unicode scalar values. */
  lemma Utf8IsUnicode(s: seq<Byte>)
    ensures Utf8(s) <==> exists cs: seq<nat> :: AllScalars(cs) && EncodeAll(cs) == s
  {
    if Utf8(s) {
      var cs := Decoded(s);
    }
    forall cs: seq<nat> | AllScalars(cs) && EncodeAll(cs) == s
      ensures Utf8(s)
    {
      EncodedIsUtf8(cs);
    }
  }

  // ------------------------------------------------------------------------------------------
  // Artifacts and their builder.

  datatype Mapping = Mapping(slot: nat, input: bool, name: seq<Byte>)

  datatype Artifact = Artifact(path: seq<Byte>, mappings: seq<Mapping>)

  datatype BuildError =
    | EmptyModelPath | ModelPathTooLong | EmptyFeatureName | FeatureNameTooLong | DuplicateFeature | EmptyMappings
    | TooManyMappings | ArtifactTooLarge

  predicate GoodMapping(m: Mapping) { m.slot < U32 && 1 <= |m.name| <= MAX_NAME_BYTES && Utf8(m.name) }

  /** No two mappings name the same feature in the same role. */
  ghost predicate DistinctFeatures(ms: seq<Mapping>) {
    forall i, j | 0 <= i < j < |ms| :: (ms[i].input, ms[i].name) != (ms[j].input, ms[j].name)
  }

  /** What the builder can hold. */
  ghost predicate Buildable(a: Artifact) {
    && 1 <= |a.path| <= MAX_PATH_BYTES && Utf8(a.path) && |a.mappings| <= MAX_MAPPINGS
    && (forall i | 0 <= i < |a.mappings| :: GoodMapping(a.mappings[i])) && DistinctFeatures(a.mappings)
  }

  function NewArtifact(path: seq<Byte>): (r: Result<Artifact, BuildError>)
    requires Utf8(path)
    ensures r.Ok? <==> 1 <= |path| <= MAX_PATH_BYTES
    ensures r.Ok? ==> Buildable(r.value)
    ensures r == Err(EmptyModelPath) <==> path == []
    ensures r == Err(ModelPathTooLong) <==> |path| > MAX_PATH_BYTES
  {
    if path == [] then Err(EmptyModelPath)
    else if |path| > MAX_PATH_BYTES then Err(ModelPathTooLong)
    else Ok(Artifact(path, []))
  }

  function MapFeature(a: Artifact, slot: nat, input: bool, name: seq<Byte>): (r: Result<Artifact, BuildError>)
    requires Buildable(a) && slot < U32 && Utf8(name)
    ensures r.Ok? ==> Buildable(r.value) && r.value == Artifact(a.path, a.mappings + [Mapping(slot, input, name)])
    ensures r.Ok? <==> Buildable(Artifact(a.path, a.mappings + [Mapping(slot, input, name)]))
    ensures r == Err(EmptyFeatureName) <==> name == []
    ensures r == Err(FeatureNameTooLong) <==> |name| > MAX_NAME_BYTES
    ensures r == Err(DuplicateFeature) ==>
              exists i | 0 <= i < |a.mappings| :: a.mappings[i].input == input && a.mappings[i].name == name
    ensures r == Err(TooManyMappings) ==> |a.mappings| == MAX_MAPPINGS
  {
    var m := Mapping(slot, input, name);
    assert (a.mappings + [m])[|a.mappings|] == m
           && forall i | 0 <= i < |a.mappings| :: (a.mappings + [m])[i] == a.mappings[i];
    if name == [] then Err(EmptyFeatureName)
    else if |name| > MAX_NAME_BYTES then Err(FeatureNameTooLong)
    else if exists i | 0 <= i < |a.mappings| :: a.mappings[i].input == input && a.mappings[i].name == name then
      Err(DuplicateFeature)
    else if |a.mappings| == MAX_MAPPINGS then Err(TooManyMappings)
    else Ok(Artifact(a.path, a.mappings + [m]))
  }

  // ------------------------------------------------------------------------------------------
  // The encoded form.

  function Role(input: bool): nat { if input then 1 else 2 }

  function EntryBytes(m: Mapping, rest: seq<Byte>): seq<Byte> {
    Put(4, m.slot, Put(1, Role(m.input), Put(1, 0, Put(2, |m.name|, m.name + rest))))
  }

  function EntriesBytes(ms: seq<Mapping>): seq<Byte> {
    if ms == [] then [] else EntryBytes(ms[0], EntriesBytes(ms[1..]))
  }

  function HeaderBytes(path: nat, count: nat, rest: seq<Byte>): seq<Byte> {
    MAGIC + Put(1, 1, Put(1, 0, Put(2, 0, Put(2, path, Put(2, count, Put(4, 0, rest))))))
  }

  function ArtifactBytes(a: Artifact): seq<Byte> {
    HeaderBytes(|a.path|, |a.mappings|, a.path + EntriesBytes(a.mappings))
  }

  ghost predicate Encodable(a: Artifact) {
    Buildable(a) && a.mappings != [] && |ArtifactBytes(a)| <= MAX_ARTIFACT_BYTES
  }

  lemma EntryAppends(m: Mapping)
    ensures forall rest :: EntryBytes(m, rest) == EntryBytes(m, []) + rest
  {
    forall rest
      ensures EntryBytes(m, rest) == EntryBytes(m, []) + rest
    {
    }
  }

  lemma {:induction false} EntriesAppend(ms: seq<Mapping>, m: Mapping)
    ensures EntriesBytes(ms + [m]) == EntriesBytes(ms) + EntryBytes(m, [])
  {
    hide EntryBytes;
    if ms == [] {
      assert EntriesBytes([m]) == EntryBytes(m, EntriesBytes([m][1..]));
    } else {
      assert (ms + [m])[1..] == ms[1..] + [m];
      EntriesAppend(ms[1..], m);
      EntryAppends(ms[0]);
      var front := EntryBytes(ms[0], []);
      assert EntryBytes(ms[0], EntriesBytes(ms[1..])) == front + EntriesBytes(ms[1..]);
    }
  }

  lemma HeaderAppends(path: nat, count: nat, rest: seq<Byte>)
    ensures HeaderBytes(path, count, rest) == HeaderBytes(path, count, []) + rest
  {}

  method Encode(a: Artifact) returns (r: Result<seq<Byte>, BuildError>)
    requires Buildable(a)
    ensures r.Ok? <==> Encodable(a)
    ensures r.Ok? ==> r.value == ArtifactBytes(a)
  {
    hide EntryBytes, HeaderBytes;
    if a.mappings == [] { return Err(EmptyMappings); }
    var bytes := HeaderBytes(|a.path|, |a.mappings|, []) + a.path;
    for n := 0 to |a.mappings|
      invariant bytes == HeaderBytes(|a.path|, |a.mappings|, []) + a.path + EntriesBytes(a.mappings[..n])
    {
      EntriesAppend(a.mappings[..n], a.mappings[n]);
      assert a.mappings[..n + 1] == a.mappings[..n] + [a.mappings[n]];
      bytes := bytes + EntryBytes(a.mappings[n], []);
    }
    assert a.mappings[..|a.mappings|] == a.mappings;
    HeaderAppends(|a.path|, |a.mappings|, a.path + EntriesBytes(a.mappings));
    assert bytes == HeaderBytes(|a.path|, |a.mappings|, []) + (a.path + EntriesBytes(a.mappings));
    if |bytes| > MAX_ARTIFACT_BYTES { return Err(ArtifactTooLarge); }
    return Ok(bytes);
  }

  // ------------------------------------------------------------------------------------------
  // Decoding.

  datatype DecodeError = Invalid | OutOfRange | TooLarge

  datatype Entry = Entry(mapping: Mapping, next: nat)

  function ParseEntry(s: seq<Byte>, cursor: nat): (r: Result<Entry, DecodeError>)
    ensures r.Ok? ==> cursor < r.value.next <= |s|
  {
    if cursor + 8 > |s| then Err(OutOfRange)
    else if Field(s, cursor + 5, 1) != 0 then Err(Invalid)
    else if !(1 <= Field(s, cursor + 4, 1) <= 2) then Err(Invalid)
    else
      var len := Field(s, cursor + 6, 2);
      if !(1 <= len <= MAX_NAME_BYTES) then Err(Invalid)
      else if cursor + 8 + len > |s| then Err(OutOfRange)
      else
        var name := s[cursor + 8..cursor + 8 + len];
        if !Utf8(name) then Err(Invalid)
        else Ok(Entry(Mapping(Field(s, cursor, 4), Field(s, cursor + 4, 1) == 1, name), cursor + 8 + len))
  }

  datatype Entries = Entries(mappings: seq<Mapping>, end: nat)

  /** `n` entries from `cursor` on, none naming a feature already in `seen`. */
  function ParseEntries(s: seq<Byte>, cursor: nat, n: nat, seen: set<(bool, seq<Byte>)>): Result<Entries, DecodeError>
    decreases n
  {
    if n == 0 then Ok(Entries([], cursor))
    else
      var e :- ParseEntry(s, cursor);
      var feature := (e.mapping.input, e.mapping.name);
      if feature in seen then Err(Invalid)
      else
        var rest :- ParseEntries(s, e.next, n - 1, seen + {feature});
        Ok(Entries([e.mapping] + rest.mappings, rest.end))
  }

  function ParseArtifact(s: seq<Byte>, memory: bool): Result<Artifact, DecodeError> {
    if |s| > MAX_ARTIFACT_BYTES then Err(TooLarge)
    else if |s| < 16 then Err(Invalid)
    else if || s[..4] != MAGIC || Field(s, 4, 1) != 1 || Field(s, 5, 1) != 0 || Field(s, 6, 2) != 0
            || Field(s, 12, 4) != 0
    then Err(Invalid)
    else
      var path, count := Field(s, 8, 2), Field(s, 10, 2);
      if !(1 <= path <= MAX_PATH_BYTES) || count > MAX_MAPPINGS then Err(Invalid)
      else if 16 + path > |s| then Err(OutOfRange)
      else if !Utf8(s[16..16 + path]) then Err(Invalid)
      else if !memory then Err(TooLarge)
      else
        var entries :- ParseEntries(s, 16 + path, count, {});
        if entries.end != |s| || entries.mappings == [] then Err(Invalid)
        else Ok(Artifact(s[16..16 + path], entries.mappings))
  }

  lemma EntryReads(s: seq<Byte>, cursor: nat, m: Mapping, rest: seq<Byte>)
    requires GoodMapping(m) && cursor <= |s| && s[cursor..] == EntryBytes(m, rest)
    ensures ParseEntry(s, cursor) == Ok(Entry(m, cursor + 8 + |m.name|)) && s[cursor + 8 + |m.name|..] == rest
  {
    hide LeBytes, LeValue, Pow256, Put, Field, Utf8;
    Widths();
    var s4 := m.name + rest;
    var s3 := Put(2, |m.name|, s4);
    PutReads(2, |m.name|, s4);
    var s2 := Put(1, 0, s3);
    PutReads(1, 0, s3);
    var s1 := Put(1, Role(m.input), s2);
    PutReads(1, Role(m.input), s2);
    var t := Put(4, m.slot, s1);
    PutReads(4, m.slot, s1);
    assert s[cursor..] == s[cursor..|s|];
    SubField(s, cursor, |s|, 0, 4);
    SubField(s, cursor, |s|, 4, 1);
    SubField(s, cursor, |s|, 5, 1);
    SubField(s, cursor, |s|, 6, 2);
    assert t[8..] == s1[4..] == s2[3..] == s3[2..] == s4;
    assert s[cursor + 8..] == s[cursor..][8..] == s4;
    assert s[cursor + 8..cursor + 8 + |m.name|] == s4[..|m.name|] == m.name;
    assert s[cursor + 8 + |m.name|..] == s4[|m.name|..] == rest;
  }

  ghost predicate Fresh(ms: seq<Mapping>, seen: set<(bool, seq<Byte>)>) {
    forall i | 0 <= i < |ms| :: (ms[i].input, ms[i].name) !in seen
  }

  lemma {:induction false} EntriesRead(s: seq<Byte>, cursor: nat, ms: seq<Mapping>, seen: set<(bool, seq<Byte>)>)
    requires (forall i | 0 <= i < |ms| :: GoodMapping(ms[i])) && DistinctFeatures(ms) && Fresh(ms, seen)
    requires cursor <= |s| && s[cursor..] == EntriesBytes(ms)
    ensures ParseEntries(s, cursor, |ms|, seen) == Ok(Entries(ms, |s|))
    decreases |ms|
  {
    hide EntryBytes, ParseEntry, GoodMapping;
    if ms != [] {
      var m := ms[0];
      EntryReads(s, cursor, m, EntriesBytes(ms[1..]));
      assert Fresh(ms[1..], seen + {(m.input, m.name)}) by {
        assert forall i | 0 <= i < |ms| - 1 :: ms[1..][i] == ms[i + 1];
      }
      EntriesRead(s, cursor + 8 + |m.name|, ms[1..], seen + {(m.input, m.name)});
      assert ms == [m] + ms[1..];
    }
  }

  lemma HeaderReads(path: nat, count: nat, rest: seq<Byte>)
    requires path < U16 && count < U16
    ensures var s := HeaderBytes(path, count, rest);
            && |s| == 16 + |rest| && s[16..] == rest && s[..4] == MAGIC
            && Field(s, 4, 1) == 1 && Field(s, 5, 1) == 0 && Field(s, 6, 2) == 0 && Field(s, 12, 4) == 0
            && Field(s, 8, 2) == path && Field(s, 10, 2) == count
  {
    hide LeBytes, LeValue, Pow256, Put, Field;
    Widths();
    var s6 := Put(4, 0, rest);
    PutReads(4, 0, rest);
    var s5 := Put(2, count, s6);
    PutReads(2, count, s6);
    var s4 := Put(2, path, s5);
    PutReads(2, path, s5);
    var s3 := Put(2, 0, s4);
    PutReads(2, 0, s4);
    var s2 := Put(1, 0, s3);
    PutReads(1, 0, s3);
    var s1 := Put(1, 1, s2);
    PutReads(1, 1, s2);
    var s := MAGIC + s1;
    assert s[4..|s|] == s1;
    SubField(s, 4, |s|, 0, 1);
    SubField(s, 4, |s|, 1, 1);
    SubField(s, 4, |s|, 2, 2);
    SubField(s, 4, |s|, 4, 2);
    SubField(s, 4, |s|, 6, 2);
    SubField(s, 4, |s|, 8, 4);
    assert s[16..] == s1[12..] == s2[11..] == s3[10..] == s4[8..] == s5[6..] == s6[4..];
  }

  /** Every artifact the builder can encode decodes to itself. */
  lemma EncodedDecodes(a: Artifact)
    requires Encodable(a)
    ensures ParseArtifact(ArtifactBytes(a), true) == Ok(a)
  {
    hide Field, Put, HeaderBytes, EntriesBytes, ParseEntries, Utf8, GoodMapping, DistinctFeatures;
    var rest := a.path + EntriesBytes(a.mappings);
    HeaderReads(|a.path|, |a.mappings|, rest);
    var s := ArtifactBytes(a);
    assert s[16..16 + |a.path|] == rest[..|a.path|] == a.path;
    assert s[16 + |a.path|..] == rest[|a.path|..] == EntriesBytes(a.mappings);
    EntriesRead(s, 16 + |a.path|, a.mappings, {});
  }

  lemma EntryCanonical(s: seq<Byte>, cursor: nat)
    requires ParseEntry(s, cursor).Ok?
    ensures var e := ParseEntry(s, cursor).value;
            GoodMapping(e.mapping) && s[cursor..] == EntryBytes(e.mapping, s[e.next..])
  {
    hide LeBytes, LeValue, Pow256, Put, Utf8;
    Widths();
    Peel(s, cursor, 4);
    Peel(s, cursor + 4, 1);
    Peel(s, cursor + 5, 1);
    Peel(s, cursor + 6, 2);
    var e := ParseEntry(s, cursor).value;
    assert s[cursor + 8..] == e.mapping.name + s[e.next..];
  }

  lemma {:induction false} EntriesCanonical(s: seq<Byte>, cursor: nat, n: nat, seen: set<(bool, seq<Byte>)>)
    requires cursor <= |s| && ParseEntries(s, cursor, n, seen).Ok? && ParseEntries(s, cursor, n, seen).value.end == |s|
    ensures var ms := ParseEntries(s, cursor, n, seen).value.mappings;
            && |ms| == n && (forall i | 0 <= i < |ms| :: GoodMapping(ms[i])) && DistinctFeatures(ms) && Fresh(ms, seen)
            && s[cursor..] == EntriesBytes(ms)
    decreases n
  {
    hide EntryBytes, ParseEntry, GoodMapping;
    if n > 0 {
      var e := ParseEntry(s, cursor).value;
      var more := seen + {(e.mapping.input, e.mapping.name)};
      EntryCanonical(s, cursor);
      EntriesCanonical(s, e.next, n - 1, more);
      var rest := ParseEntries(s, e.next, n - 1, more).value.mappings;
      FreshHead(e.mapping, rest, seen);
      assert ([e.mapping] + rest)[1..] == rest;
    }
  }

  lemma FreshHead(m: Mapping, rest: seq<Mapping>, seen: set<(bool, seq<Byte>)>)
    requires (m.input, m.name) !in seen && DistinctFeatures(rest) && Fresh(rest, seen + {(m.input, m.name)})
    ensures DistinctFeatures([m] + rest) && Fresh([m] + rest, seen)
  {
    forall i | 0 <= i < |rest|
      ensures (rest[i].input, rest[i].name) != (m.input, m.name) && (rest[i].input, rest[i].name) !in seen
    {
      assert (rest[i].input, rest[i].name) !in seen + {(m.input, m.name)};
    }
  }

  lemma HeaderCanonical(s: seq<Byte>)
    requires |s| >= 16 && s[..4] == MAGIC
    requires Field(s, 4, 1) == 1 && Field(s, 5, 1) == 0 && Field(s, 6, 2) == 0 && Field(s, 12, 4) == 0
    ensures HeaderBytes(Field(s, 8, 2), Field(s, 10, 2), s[16..]) == s
  {
    hide LeBytes, LeValue, Pow256, Put;
    Peel(s, 4, 1);
    Peel(s, 5, 1);
    Peel(s, 6, 2);
    Peel(s, 8, 2);
    Peel(s, 10, 2);
    Peel(s, 12, 4);
    assert s == s[..4] + s[4..];
  }

  /** Every accepted byte string is the encoding of the artifact it decodes to. */
  lemma DecodedReencodes(s: seq<Byte>)
    requires ParseArtifact(s, true).Ok?
    ensures Encodable(ParseArtifact(s, true).value) && ArtifactBytes(ParseArtifact(s, true).value) == s
  {
    hide Field, Put, HeaderBytes, EntriesBytes, Utf8, GoodMapping, DistinctFeatures, ParseEntries;
    HeaderCanonical(s);
    var path := Field(s, 8, 2);
    EntriesCanonical(s, 16 + path, Field(s, 10, 2), {});
    assert s[16..] == s[16..16 + path] + s[16 + path..];
  }

  /** Encodable artifacts and accepted byte strings correspond one to one. */
  lemma CodecIsBijective(a: Artifact, s: seq<Byte>)
    ensures Encodable(a) && ArtifactBytes(a) == s <==> ParseArtifact(s, true) == Ok(a)
  {
    hide Encodable, ArtifactBytes, ParseArtifact;
    if Encodable(a) && ArtifactBytes(a) == s { EncodedDecodes(a); }
    if ParseArtifact(s, true) == Ok(a) { DecodedReencodes(s); }
  }

  method ReadBytes(source: Source, offset: nat, bytes: nat) returns (r: Option<seq<Byte>>)
    requires ValidSource(source)
    ensures r == if offset + bytes <= |Content(source)| then Some(Content(source)[offset..offset + bytes]) else None
  {
    var scratch := new Byte[bytes];
    var read := ReadAt(source, offset, scratch);
    return if read.Ok? then Some(scratch[..]) else None;
  }

  method DecodeEntry(source: Source, cursor: nat) returns (r: Result<Entry, DecodeError>)
    requires ValidSource(source)
    ensures r == ParseEntry(Content(source), cursor)
  {
    hide Content, ValidSource, Utf8;
    ghost var s := Content(source);
    var entry := ReadBytes(source, cursor, 8);
    if entry.None? { return Err(OutOfRange); }
    EntryFields(s, cursor);
    if Field(entry.value, 5, 1) != 0 { return Err(Invalid); }
    var role := Field(entry.value, 4, 1);
    if !(1 <= role <= 2) { return Err(Invalid); }
    var len := Field(entry.value, 6, 2);
    if !(1 <= len <= MAX_NAME_BYTES) { return Err(Invalid); }
    var name := ReadBytes(source, cursor + 8, len);
    if name.None? { return Err(OutOfRange); }
    if !Utf8(name.value) { return Err(Invalid); }
    return Ok(Entry(Mapping(Field(entry.value, 0, 4), role == 1, name.value), cursor + 8 + len));
  }

  lemma EntryFields(s: seq<Byte>, cursor: nat)
    requires cursor + 8 <= |s|
    ensures var e := s[cursor..cursor + 8];
            && Field(e, 0, 4) == Field(s, cursor, 4) && Field(e, 4, 1) == Field(s, cursor + 4, 1)
            && Field(e, 5, 1) == Field(s, cursor + 5, 1) && Field(e, 6, 2) == Field(s, cursor + 6, 2)
  {
    hide Field;
    SubField(s, cursor, cursor + 8, 0, 4);
    SubField(s, cursor, cursor + 8, 4, 1);
    SubField(s, cursor, cursor + 8, 5, 1);
    SubField(s, cursor, cursor + 8, 6, 2);
  }

  /** The entry loop: a cursor over the source, the features seen, the mappings so far. */
  method DecodeEntries(source: Source, start: nat, count: nat) returns (r: Result<Entries, DecodeError>)
    requires ValidSource(source)
    ensures r == ParseEntries(Content(source), start, count, {})
  {
    hide Content, ValidSource, ParseEntry;
    ghost var s := Content(source);
    var cursor, mappings, features := start, [], {};
    PrependNothing(ParseEntries(s, start, count, {}));
    for n := 0 to count
      invariant ParseEntries(s, start, count, {}) == Prepend(mappings, ParseEntries(s, cursor, count - n, features))
    {
      var e := DecodeEntry(source, cursor);
      if e.Err? { return Err(e.error); }
      var feature := (e.value.mapping.input, e.value.mapping.name);
      if feature in features { return Err(Invalid); }
      PrependOne(mappings, e.value.mapping, ParseEntries(s, e.value.next, count - n - 1, features + {feature}));
      cursor, mappings, features := e.value.next, mappings + [e.value.mapping], features + {feature};
    }
    assert mappings + [] == mappings;
    return Ok(Entries(mappings, cursor));
  }

  ghost function Prepend(ms: seq<Mapping>, r: Result<Entries, DecodeError>): Result<Entries, DecodeError> {
    match r case Ok(e) => Ok(Entries(ms + e.mappings, e.end)) case Err(x) => Err(x)
  }

  lemma PrependNothing(r: Result<Entries, DecodeError>)
    ensures Prepend([], r) == r
  {
    if r.Ok? { assert [] + r.value.mappings == r.value.mappings; }
  }

  lemma PrependOne(ms: seq<Mapping>, m: Mapping, r: Result<Entries, DecodeError>)
    ensures Prepend(ms + [m], r) == Prepend(ms, Prepend([m], r))
  {
    if r.Ok? { assert ms + [m] + r.value.mappings == ms + ([m] + r.value.mappings); }
  }

  method Decode(source: Source, memory: bool) returns (r: Result<Artifact, DecodeError>)
    requires ValidSource(source)
    ensures r == ParseArtifact(Content(source), memory)
  {
    hide Content, ValidSource, ParseEntries, Utf8;
    ghost var s := Content(source);
    if Length(source) > MAX_ARTIFACT_BYTES { return Err(TooLarge); }
    if Length(source) < 16 { return Err(Invalid); }
    var header := ReadBytes(source, 0, 16);
    HeaderFields(s, header.value);
    var h := header.value;
    if h[..4] != MAGIC || Field(h, 4, 1) != 1 || Field(h, 5, 1) != 0 || Field(h, 6, 2) != 0
       || Field(h, 12, 4) != 0 {
      return Err(Invalid);
    }
    var path, count := Field(h, 8, 2), Field(h, 10, 2);
    if !(1 <= path <= MAX_PATH_BYTES) || count > MAX_MAPPINGS { return Err(Invalid); }
    var model := ReadBytes(source, 16, path);
    if model.None? { return Err(OutOfRange); }
    if !Utf8(model.value) { return Err(Invalid); }
    if !memory { return Err(TooLarge); }
    var entries := DecodeEntries(source, 16 + path, count);
    if entries.Err? { return Err(entries.error); }
    if entries.value.end != Length(source) || entries.value.mappings == [] { return Err(Invalid); }
    return Ok(Artifact(model.value, entries.value.mappings));
  }

  lemma HeaderFields(s: seq<Byte>, h: seq<Byte>)
    requires 16 <= |s| && h == s[0..16]
    ensures h[..4] == s[..4] && Field(h, 4, 1) == Field(s, 4, 1) && Field(h, 5, 1) == Field(s, 5, 1)
            && Field(h, 6, 2) == Field(s, 6, 2)
    ensures Field(h, 8, 2) == Field(s, 8, 2) && Field(h, 10, 2) == Field(s, 10, 2) && Field(h, 12, 4) == Field(s, 12, 4)
  {
    hide Field;
    SubField(s, 0, 16, 4, 1);
    SubField(s, 0, 16, 5, 1);
    SubField(s, 0, 16, 6, 2);
    SubField(s, 0, 16, 8, 2);
    SubField(s, 0, 16, 10, 2);
    SubField(s, 0, 16, 12, 4);
  }

  // ------------------------------------------------------------------------------------------
  // Why bytes are refused.

  lemma PrefixField(t: seq<Byte>, n: nat, off: nat, w: nat)
    requires off + w <= n <= |t|
    ensures Field(t[..n], off, w) == Field(t, off, w)
  {
    assert t[..n][off..off + w] == t[off..off + w];
  }

  /** An entry cut short is out of range; one that is still whole reads the same. */
  lemma PrefixEntry(t: seq<Byte>, n: nat, cursor: nat)
    requires n <= |t| && ParseEntry(t, cursor).Ok?
    ensures ParseEntry(t[..n], cursor)
            == if ParseEntry(t, cursor).value.next <= n then ParseEntry(t, cursor) else Err(OutOfRange)
  {
    hide Field, Utf8;
    if cursor + 8 <= n {
      PrefixField(t, n, cursor, 4);
      PrefixField(t, n, cursor + 4, 1);
      PrefixField(t, n, cursor + 5, 1);
      PrefixField(t, n, cursor + 6, 2);
      var end := cursor + 8 + Field(t, cursor + 6, 2);
      if end <= n { assert t[..n][cursor + 8..end] == t[cursor + 8..end]; }
    }
  }

  lemma {:induction false} PrefixEntries(t: seq<Byte>, n: nat, cursor: nat, count: nat, seen: set<(bool, seq<Byte>)>)
    requires n <= |t| && ParseEntries(t, cursor, count, seen).Ok? && n < ParseEntries(t, cursor, count, seen).value.end
    requires cursor <= n
    ensures ParseEntries(t[..n], cursor, count, seen) == Err(OutOfRange)
    decreases count
  {
    hide ParseEntry;
    if count > 0 {
      PrefixEntry(t, n, cursor);
      var e := ParseEntry(t, cursor).value;
      if e.next <= n { PrefixEntries(t, n, e.next, count - 1, seen + {(e.mapping.input, e.mapping.name)}); }
    }
  }

  /** Every proper prefix of an artifact that contains its header is refused as out of range. */
  lemma TruncationsAreOutOfRange(t: seq<Byte>, n: nat)
    requires ParseArtifact(t, true).Ok? && n < |t|
    ensures ParseArtifact(t[..n], true) == Err(if n < 16 then Invalid else OutOfRange)
  {
    hide Field, Utf8, ParseEntries;
    if n >= 16 {
      PrefixField(t, n, 4, 1);
      PrefixField(t, n, 5, 1);
      PrefixField(t, n, 6, 2);
      PrefixField(t, n, 8, 2);
      PrefixField(t, n, 10, 2);
      PrefixField(t, n, 12, 4);
      assert t[..n][..4] == t[..4];
      var path, count := Field(t, 8, 2), Field(t, 10, 2);
      if 16 + path <= n {
        assert t[..n][16..16 + path] == t[16..16 + path];
        PrefixEntries(t, n, 16 + path, count, {});
      }
    }
  }

  /** Too much is too large whatever it holds; without memory a good artifact is too large as well. */
  lemma LargeArtifacts(s: seq<Byte>, memory: bool)
    ensures |s| > MAX_ARTIFACT_BYTES ==> ParseArtifact(s, memory) == Err(TooLarge)
    ensures ParseArtifact(s, memory) == Err(TooLarge) ==> |s| > MAX_ARTIFACT_BYTES || !memory
    ensures ParseArtifact(s, true).Ok? ==> ParseArtifact(s, false) == Err(TooLarge)
  {
    hide Field, Utf8;
    if 16 <= |s| <= MAX_ARTIFACT_BYTES && 16 + Field(s, 8, 2) <= |s| {
      NeverTooLarge(s, 16 + Field(s, 8, 2), Field(s, 10, 2), {});
    }
  }

  lemma {:induction false} NeverTooLarge(s: seq<Byte>, cursor: nat, n: nat, seen: set<(bool, seq<Byte>)>)
    ensures ParseEntries(s, cursor, n, seen) != Err(TooLarge)
    decreases n
  {
    hide Field, Utf8;
    if n > 0 && ParseEntry(s, cursor).Ok? {
      var e := ParseEntry(s, cursor).value;
      NeverTooLarge(s, e.next, n - 1, seen + {(e.mapping.input, e.mapping.name)});
    }
  }
}
