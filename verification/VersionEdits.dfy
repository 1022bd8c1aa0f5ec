/** The records of the manifest: version edits and their encoding. */
module VersionEdits {
  import opened InternalKeys
  import opened Versions
  import opened Coding

  const TAG_COMPARATOR := 1
  const TAG_LOG_NUMBER := 2
  const TAG_NEXT_FILE_NUMBER := 3
  const TAG_LAST_SEQUENCE := 4
  const TAG_COMPACT_POINTER := 5
  const TAG_DELETED_FILE := 6
  const TAG_NEW_FILE := 7
  const TAG_PREV_LOG_NUMBER := 9

  datatype NewFile = NewFile(level: nat, number: nat, size: nat, smallest: Bytes, largest: Bytes)

  datatype VersionEdit = VersionEdit(
    comparator: Option<Bytes>, logNumber: Option<nat>, prevLogNumber: Option<nat>, nextFileNumber: Option<nat>,
    lastSequence: Option<nat>, pointers: seq<(nat, Bytes)>, deleted: set<(nat, nat)>, added: seq<NewFile>)

  const CLEARED := VersionEdit(None, None, None, None, None, [], {}, [])

  datatype Field =
    | Comparator(name: Bytes)
    | LogNumber(number: nat)
    | PrevLogNumber(number: nat)
    | NextFileNumber(number: nat)
    | LastSequence(number: nat)
    | CompactPointer(level: nat, key: Bytes)
    | DeletedFile(level: nat, number: nat)
    | AddedFile(file: NewFile)

  datatype Decoded = Ok(edit: VersionEdit) | Corruption

  predicate IsKey(k: Bytes) { 0 < |k| < W32 }

  predicate IsFile(f: NewFile) {
    f.level < NUM_LEVELS && f.number < W64 && f.size < W64 && IsKey(f.smallest) && IsKey(f.largest)
  }

  /** What the store writes: levels that exist, non-empty keys, 64-bit numbers. */
  predicate IsField(f: Field) {
    match f
    case Comparator(name) => |name| < W32
    case CompactPointer(level, key) => level < NUM_LEVELS && IsKey(key)
    case DeletedFile(level, number) => level < NUM_LEVELS && number < W64
    case AddedFile(file) => IsFile(file)
    case _ => f.number < W64
  }

  predicate FitsWidth(n: Option<nat>) { n.Some? ==> n.value < W64 }

  ghost predicate IsEdit(e: VersionEdit) {
    && (e.comparator.Some? ==> |e.comparator.value| < W32)
    && FitsWidth(e.logNumber) && FitsWidth(e.prevLogNumber) && FitsWidth(e.nextFileNumber) && FitsWidth(e.lastSequence)
    && (forall p :: p in e.pointers ==> IsField(CompactPointer(p.0, p.1)))
    && (forall d :: d in e.deleted ==> IsField(DeletedFile(d.0, d.1)))
    && (forall f :: f in e.added ==> IsFile(f))
  }

  // ----- the format -----

  function Put(f: Field): Bytes {
    match f
    case Comparator(name) => Varint(TAG_COMPARATOR) + Prefixed(name)
    case LogNumber(n) => Varint(TAG_LOG_NUMBER) + Varint(n)
    case PrevLogNumber(n) => Varint(TAG_PREV_LOG_NUMBER) + Varint(n)
    case NextFileNumber(n) => Varint(TAG_NEXT_FILE_NUMBER) + Varint(n)
    case LastSequence(n) => Varint(TAG_LAST_SEQUENCE) + Varint(n)
    case CompactPointer(level, key) => Varint(TAG_COMPACT_POINTER) + Varint(level) + Prefixed(key)
    case DeletedFile(level, number) => Varint(TAG_DELETED_FILE) + Varint(level) + Varint(number)
    case AddedFile(file) => Varint(TAG_NEW_FILE) + PutFile(file)
  }

  function PutFile(f: NewFile): Bytes {
    Varint(f.level) + (Varint(f.number) + (Varint(f.size) + (Prefixed(f.smallest) + Prefixed(f.largest))))
  }

  function PutAll(fs: seq<Field>): Bytes {
    if fs == [] then [] else PutAll(fs[..|fs|-1]) + Put(fs[|fs|-1])
  }

  function Level(input: Bytes): (r: Option<(nat, Bytes)>)
    ensures r.Some? ==> |r.value.1| < |input|
  {
    var v := Varint32(input);
    if v.Some? && v.value.0 < NUM_LEVELS then v else None
  }

  function Key(input: Bytes): (r: Option<(Bytes, Bytes)>)
    ensures r.Some? ==> |r.value.1| < |input|
  {
    var s := Unprefixed(input);
    if s.Some? && s.value.0 != [] then s else None
  }

  function File(input: Bytes): (r: Option<(NewFile, Bytes)>)
    ensures r.Some? ==> |r.value.1| < |input|
  {
    var level := Level(input);
    if level.None? then None else
    var number := Varint64(level.value.1);
    if number.None? then None else
    var size := Varint64(number.value.1);
    if size.None? then None else
    var smallest := Key(size.value.1);
    if smallest.None? then None else
    var largest := Key(smallest.value.1);
    if largest.None? then None else
    Some((NewFile(level.value.0, number.value.0, size.value.0, smallest.value.0, largest.value.0), largest.value.1))
  }

  function Body(tag: nat, input: Bytes): (r: Option<(Field, Bytes)>)
    ensures r.Some? ==> |r.value.1| < |input|
  {
    if tag == TAG_COMPARATOR then
      var s := Unprefixed(input);
      if s.None? then None else Some((Comparator(s.value.0), s.value.1))
    else if tag == TAG_COMPACT_POINTER then
      var level := Level(input);
      if level.None? then None else
      var key := Key(level.value.1);
      if key.None? then None else Some((CompactPointer(level.value.0, key.value.0), key.value.1))
    else if tag == TAG_DELETED_FILE then
      var level := Level(input);
      if level.None? then None else
      var number := Varint64(level.value.1);
      if number.None? then None else Some((DeletedFile(level.value.0, number.value.0), number.value.1))
    else if tag == TAG_NEW_FILE then
      var f := File(input);
      if f.None? then None else Some((AddedFile(f.value.0), f.value.1))
    else
      var n := Varint64(input);
      if n.None? then None
      else if tag == TAG_LOG_NUMBER then Some((LogNumber(n.value.0), n.value.1))
      else if tag == TAG_PREV_LOG_NUMBER then Some((PrevLogNumber(n.value.0), n.value.1))
      else if tag == TAG_NEXT_FILE_NUMBER then Some((NextFileNumber(n.value.0), n.value.1))
      else if tag == TAG_LAST_SEQUENCE then Some((LastSequence(n.value.0), n.value.1))
      else None
  }

  function Absorb(e: VersionEdit, f: Field): VersionEdit {
    match f
    case Comparator(name) => e.(comparator := Some(name))
    case LogNumber(n) => e.(logNumber := Some(n))
    case PrevLogNumber(n) => e.(prevLogNumber := Some(n))
    case NextFileNumber(n) => e.(nextFileNumber := Some(n))
    case LastSequence(n) => e.(lastSequence := Some(n))
    case CompactPointer(level, key) => e.(pointers := e.pointers + [(level, key)])
    case DeletedFile(level, number) => e.(deleted := e.deleted + {(level, number)})
    case AddedFile(file) => e.(added := e.added + [file])
  }

  function AbsorbAll(e: VersionEdit, fs: seq<Field>): VersionEdit {
    if fs == [] then e else Absorb(AbsorbAll(e, fs[..|fs|-1]), fs[|fs|-1])
  }

  /** Reading on from `input` with `e` read so far. */
  function Decode(input: Bytes, e: VersionEdit): Decoded
    decreases |input|
  {
    var tag := Varint32(input);
    if tag.None? then (if input == [] then Ok(e) else Corruption)
    else
      var body := Body(tag.value.0, tag.value.1);
      if body.None? then Corruption else Decode(body.value.1, Absorb(e, body.value.0))
  }

  // ----- round trip -----

  lemma LevelRoundTrip(level: nat, suffix: Bytes)
    requires level < NUM_LEVELS
    ensures Level(Varint(level) + suffix) == Some((level, suffix))
  {
    Varint32RoundTrip(level, suffix);
  }

  lemma KeyRoundTrip(key: Bytes, suffix: Bytes)
    requires IsKey(key)
    ensures Key(Prefixed(key) + suffix) == Some((key, suffix))
  {
    PrefixedRoundTrip(key, suffix);
  }

  lemma FileRoundTrip(f: NewFile, suffix: Bytes)
    requires IsFile(f)
    ensures File(PutFile(f) + suffix) == Some((f, suffix))
  {
    hide Level, Key, Varint64, Varint, Prefixed;
    var largest := Prefixed(f.largest) + suffix;
    var smallest := Prefixed(f.smallest) + largest;
    var size := Varint(f.size) + smallest;
    var number := Varint(f.number) + size;
    assert PutFile(f) + suffix == Varint(f.level) + number;
    LevelRoundTrip(f.level, number);
    Varint64RoundTrip(f.number, size);
    Varint64RoundTrip(f.size, smallest);
    KeyRoundTrip(f.smallest, largest);
    KeyRoundTrip(f.largest, suffix);
  }

  function Tag(f: Field): nat {
    match f
    case Comparator(_) => TAG_COMPARATOR
    case LogNumber(_) => TAG_LOG_NUMBER
    case PrevLogNumber(_) => TAG_PREV_LOG_NUMBER
    case NextFileNumber(_) => TAG_NEXT_FILE_NUMBER
    case LastSequence(_) => TAG_LAST_SEQUENCE
    case CompactPointer(_, _) => TAG_COMPACT_POINTER
    case DeletedFile(_, _) => TAG_DELETED_FILE
    case AddedFile(_) => TAG_NEW_FILE
  }

  lemma FieldRoundTrip(f: Field, suffix: Bytes)
    requires IsField(f)
    ensures exists body :: Put(f) + suffix == Varint(Tag(f)) + body && Body(Tag(f), body) == Some((f, suffix))
  {
    hide Level, Key, Varint64, Varint32, Unprefixed, Varint, Prefixed, File, PutFile;
    var body: Bytes;
    match f {
      case Comparator(name) =>
        body := Prefixed(name) + suffix;
        PrefixedRoundTrip(name, suffix);
      case CompactPointer(level, key) =>
        body := Varint(level) + (Prefixed(key) + suffix);
        LevelRoundTrip(level, Prefixed(key) + suffix);
        KeyRoundTrip(key, suffix);
      case DeletedFile(level, number) =>
        body := Varint(level) + (Varint(number) + suffix);
        LevelRoundTrip(level, Varint(number) + suffix);
        Varint64RoundTrip(number, suffix);
      case AddedFile(file) =>
        body := PutFile(file) + suffix;
        FileRoundTrip(file, suffix);
      case _ =>
        body := Varint(f.number) + suffix;
        Varint64RoundTrip(f.number, suffix);
    }
    assert Put(f) + suffix == Varint(Tag(f)) + body;
  }

  lemma DecodeField(f: Field, suffix: Bytes, e: VersionEdit)
    requires IsField(f)
    ensures Decode(Put(f) + suffix, e) == Decode(suffix, Absorb(e, f))
  {
    hide Varint, Varint32, Put, Body;
    FieldRoundTrip(f, suffix);
    var body :| Put(f) + suffix == Varint(Tag(f)) + body && Body(Tag(f), body) == Some((f, suffix));
    Varint32RoundTrip(Tag(f), body);
  }

  lemma {:induction false} DecodeFields(fs: seq<Field>, suffix: Bytes, e: VersionEdit)
    requires forall f :: f in fs ==> IsField(f)
    ensures Decode(PutAll(fs) + suffix, e) == Decode(suffix, AbsorbAll(e, fs))
  {
    hide Decode, Put, Absorb, IsField;
    if fs == [] {
      assert PutAll(fs) + suffix == suffix;
    } else {
      var init, f := fs[..|fs|-1], fs[|fs|-1];
      assert PutAll(fs) + suffix == PutAll(init) + (Put(f) + suffix);
      DecodeFields(init, Put(f) + suffix, e);
      DecodeField(f, suffix, AbsorbAll(e, init));
    }
  }

  /** Decoding what was encoded gives the edit back. */
  lemma EditRoundTrip(fs: seq<Field>)
    requires forall f :: f in fs ==> IsField(f)
    ensures Decode(PutAll(fs), CLEARED) == Ok(AbsorbAll(CLEARED, fs))
  {
    DecodeFields(fs, [], CLEARED);
    assert PutAll(fs) + [] == PutAll(fs);
    NothingLeft(AbsorbAll(CLEARED, fs));
  }

  lemma NothingLeft(e: VersionEdit)
    ensures Decode([], e) == Ok(e)
  {}

  // ----- the code -----

  method GetLevel(input: Bytes) returns (r: Option<(nat, Bytes)>)
    ensures r == Level(input)
  {
    var v := GetVarint32(input);
    r := if v.Some? && v.value.0 < NUM_LEVELS then v else None;
  }

  method GetInternalKey(input: Bytes) returns (r: Option<(Bytes, Bytes)>)
    ensures r == Key(input)
  {
    var s := GetLengthPrefixedSlice(input);
    r := if s.Some? && s.value.0 != [] then s else None;
  }

  method GetFile(input: Bytes) returns (r: Option<(NewFile, Bytes)>)
    ensures r == File(input)
  {
    var level := GetLevel(input);
    if level.None? { return None; }
    var number := GetVarint64(level.value.1);
    if number.None? { return None; }
    var size := GetVarint64(number.value.1);
    if size.None? { return None; }
    var smallest := GetInternalKey(size.value.1);
    if smallest.None? { return None; }
    var largest := GetInternalKey(smallest.value.1);
    if largest.None? { return None; }
    r := Some((NewFile(level.value.0, number.value.0, size.value.0, smallest.value.0, largest.value.0),
      largest.value.1));
  }

  method GetBody(tag: nat, input: Bytes) returns (r: Option<(Field, Bytes)>)
    ensures r == Body(tag, input)
  {
    hide Level, Key, Varint64, Unprefixed, File;
    r := None;
    if tag == TAG_COMPARATOR {
      var s := GetLengthPrefixedSlice(input);
      if s.Some? { r := Some((Comparator(s.value.0), s.value.1)); }
    } else if tag == TAG_COMPACT_POINTER {
      var level := GetLevel(input);
      if level.None? { return; }
      var key := GetInternalKey(level.value.1);
      if key.Some? { r := Some((CompactPointer(level.value.0, key.value.0), key.value.1)); }
    } else if tag == TAG_DELETED_FILE {
      var level := GetLevel(input);
      if level.None? { return; }
      var number := GetVarint64(level.value.1);
      if number.Some? { r := Some((DeletedFile(level.value.0, number.value.0), number.value.1)); }
    } else if tag == TAG_NEW_FILE {
      var f := GetFile(input);
      if f.Some? { r := Some((AddedFile(f.value.0), f.value.1)); }
    } else {
      var n := GetVarint64(input);
      if n.None? { return; }
      if tag == TAG_LOG_NUMBER { r := Some((LogNumber(n.value.0), n.value.1)); }
      else if tag == TAG_PREV_LOG_NUMBER { r := Some((PrevLogNumber(n.value.0), n.value.1)); }
      else if tag == TAG_NEXT_FILE_NUMBER { r := Some((NextFileNumber(n.value.0), n.value.1)); }
      else if tag == TAG_LAST_SEQUENCE { r := Some((LastSequence(n.value.0), n.value.1)); }
    }
  }

  method DecodeFrom(src: Bytes) returns (r: Decoded)
    ensures r == Decode(src, CLEARED)
  {
    hide Body, Absorb, Varint32;
    var input, edit := src, CLEARED;
    while true
      invariant Decode(src, CLEARED) == Decode(input, edit)
      decreases |input|
    {
      var tag := GetVarint32(input);
      if tag.None? { break; }
      var body := GetBody(tag.value.0, tag.value.1);
      if body.None? { return Corruption; }
      input, edit := body.value.1, Absorb(edit, body.value.0);
    }
    r := if input == [] then Ok(edit) else Corruption;
  }

  /** Writes the fields that are set, in a fixed order; the deleted files in some order. */
  method EncodeTo(edit: VersionEdit) returns (dst: Bytes, ghost fs: seq<Field>)
    requires IsEdit(edit)
    ensures dst == PutAll(fs) && AbsorbAll(CLEARED, fs) == edit
    ensures Decode(dst, CLEARED) == Ok(edit)
  {
    hide PutAll, AbsorbAll, Decode, IsField, Emitted;
    dst, fs := EncodeScalars(edit);
    dst, fs := EncodePointers(edit, dst, fs);
    dst, fs := EncodeDeleted(edit, dst, fs);
    dst, fs := EncodeAdded(edit, dst, fs);
    EmittedFields(dst, fs, edit);
    EditRoundTrip(fs);
  }

  lemma EmittedFields(dst: Bytes, fs: seq<Field>, e: VersionEdit)
    requires Emitted(dst, fs, e)
    ensures dst == PutAll(fs) && AbsorbAll(CLEARED, fs) == e && forall f :: f in fs ==> IsField(f)
  {}

  method EncodeScalars(edit: VersionEdit) returns (dst: Bytes, ghost fs: seq<Field>)
    requires IsEdit(edit)
    ensures Emitted(dst, fs, edit.(pointers := [], deleted := {}, added := []))
  {
    hide PutAll, AbsorbAll, Put, Emitted, IsField;
    EmptyEmitted();
    ScalarFields(edit);
    dst, fs := [], [];
    ghost var e := CLEARED;
    if edit.comparator.Some? { dst, fs, e := Emit(dst, fs, Comparator(edit.comparator.value), e); }
    if edit.logNumber.Some? { dst, fs, e := Emit(dst, fs, LogNumber(edit.logNumber.value), e); }
    if edit.prevLogNumber.Some? { dst, fs, e := Emit(dst, fs, PrevLogNumber(edit.prevLogNumber.value), e); }
    if edit.nextFileNumber.Some? { dst, fs, e := Emit(dst, fs, NextFileNumber(edit.nextFileNumber.value), e); }
    if edit.lastSequence.Some? { dst, fs, e := Emit(dst, fs, LastSequence(edit.lastSequence.value), e); }
  }

  lemma ScalarFields(edit: VersionEdit)
    requires IsEdit(edit)
    ensures edit.comparator.Some? ==> IsField(Comparator(edit.comparator.value))
    ensures edit.logNumber.Some? ==> IsField(LogNumber(edit.logNumber.value))
    ensures edit.prevLogNumber.Some? ==> IsField(PrevLogNumber(edit.prevLogNumber.value))
    ensures edit.nextFileNumber.Some? ==> IsField(NextFileNumber(edit.nextFileNumber.value))
    ensures edit.lastSequence.Some? ==> IsField(LastSequence(edit.lastSequence.value))
  {}

  lemma EmptyEmitted()
    ensures Emitted([], [], CLEARED)
  {}

  method EncodePointers(edit: VersionEdit, dst0: Bytes, ghost fs0: seq<Field>)
      returns (dst: Bytes, ghost fs: seq<Field>)
    requires IsEdit(edit) && Emitted(dst0, fs0, edit.(pointers := [], deleted := {}, added := []))
    ensures Emitted(dst, fs, edit.(deleted := {}, added := []))
  {
    hide PutAll, AbsorbAll, Put, Emitted, IsField;
    dst, fs := dst0, fs0;
    ghost var e := edit.(pointers := edit.pointers[..0], deleted := {}, added := []);
    var i := 0;
    while i < |edit.pointers|
      invariant 0 <= i <= |edit.pointers| && Emitted(dst, fs, e)
      invariant e == edit.(pointers := edit.pointers[..i], deleted := {}, added := [])
    {
      assert edit.pointers[i] in edit.pointers;
      dst, fs, e := Emit(dst, fs, CompactPointer(edit.pointers[i].0, edit.pointers[i].1), e);
      assert edit.pointers[..i + 1] == edit.pointers[..i] + [edit.pointers[i]];
      i := i + 1;
    }
    assert edit.pointers[..i] == edit.pointers;
  }

  method EncodeDeleted(edit: VersionEdit, dst0: Bytes, ghost fs0: seq<Field>) returns (dst: Bytes, ghost fs: seq<Field>)
    requires IsEdit(edit) && Emitted(dst0, fs0, edit.(deleted := {}, added := []))
    ensures Emitted(dst, fs, edit.(added := []))
  {
    hide PutAll, AbsorbAll, Put, Emitted, IsField;
    dst, fs := dst0, fs0;
    ghost var e := edit.(deleted := {}, added := []);
    var todo := edit.deleted;
    assert edit.deleted - todo == {};
    while todo != {}
      invariant todo <= edit.deleted && Emitted(dst, fs, e)
      invariant e == edit.(deleted := edit.deleted - todo, added := [])
      decreases |todo|
    {
      var d :| d in todo;
      dst, fs, e := Emit(dst, fs, DeletedFile(d.0, d.1), e);
      assert edit.deleted - (todo - {d}) == (edit.deleted - todo) + {d};
      todo := todo - {d};
    }
    assert edit.deleted - todo == edit.deleted;
  }

  method EncodeAdded(edit: VersionEdit, dst0: Bytes, ghost fs0: seq<Field>) returns (dst: Bytes, ghost fs: seq<Field>)
    requires IsEdit(edit) && Emitted(dst0, fs0, edit.(added := []))
    ensures Emitted(dst, fs, edit)
  {
    hide PutAll, AbsorbAll, Put, Emitted;
    dst, fs := dst0, fs0;
    ghost var e := edit.(added := edit.added[..0]);
    var i := 0;
    while i < |edit.added|
      invariant 0 <= i <= |edit.added| && Emitted(dst, fs, e)
      invariant e == edit.(added := edit.added[..i])
    {
      assert edit.added[i] in edit.added;
      dst, fs, e := Emit(dst, fs, AddedFile(edit.added[i]), e);
      assert edit.added[..i + 1] == edit.added[..i] + [edit.added[i]];
      i := i + 1;
    }
    assert edit.added[..i] == edit.added;
  }

  ghost predicate Emitted(dst: Bytes, fs: seq<Field>, e: VersionEdit) {
    dst == PutAll(fs) && AbsorbAll(CLEARED, fs) == e && forall f :: f in fs ==> IsField(f)
  }

  method Emit(dst: Bytes, ghost fs: seq<Field>, f: Field, ghost e: VersionEdit)
    returns (r: Bytes, ghost gs: seq<Field>, ghost e': VersionEdit)
    requires Emitted(dst, fs, e) && IsField(f)
    ensures Emitted(r, gs, e') && e' == Absorb(e, f)
  {
    hide Put, Absorb, IsField;
    r, gs, e' := dst + Put(f), fs + [f], Absorb(e, f);
    assert gs[..|gs|-1] == fs;
  }
}
