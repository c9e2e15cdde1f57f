/**
 * The resume point of a file, as stored in Kafka Connect's offset storage:
 * a map from the keys "filename", "file_hash", "line_number",
 * "last_modified" and "file_size" to strings and numbers.
 */
module FileOffsets {
  import opened Wrappers

  /** The processing state of one file; Java's `null` strings are `None`. */
  datatype FileOffset = FileOffset(
    filename: Option<string>,
    fileHash: Option<string>,
    lineNumber: int,
    lastModified: int,
    fileSize: int)

  /** A value of the offset map: Kafka Connect stores strings, numbers and nulls. */
  datatype OffsetValue = Text(text: string) | Number(number: int) | Null

  type OffsetMap = map<string, OffsetValue>

  const FilenameKey := "filename"
  const FileHashKey := "file_hash"
  const LineNumberKey := "line_number"
  const LastModifiedKey := "last_modified"
  const FileSizeKey := "file_size"

  function TextValue(s: Option<string>): OffsetValue
  {
    if s.Some? then Text(s.value) else Null
  }

  /** `FileOffset.toMap`: all five keys are present, a missing string stored as null. */
  function ToMap(o: FileOffset): (m: OffsetMap)
    ensures m.Keys == {FilenameKey, FileHashKey, LineNumberKey, LastModifiedKey, FileSizeKey}
    ensures m[LineNumberKey] == Number(o.lineNumber) && m[FileSizeKey] == Number(o.fileSize)
    ensures m[LastModifiedKey] == Number(o.lastModified)
    ensures m[FilenameKey].Null? <==> o.filename.None?
    ensures m[FileHashKey].Null? <==> o.fileHash.None?
  {
    map[FilenameKey := TextValue(o.filename), FileHashKey := TextValue(o.fileHash),
        LineNumberKey := Number(o.lineNumber), LastModifiedKey := Number(o.lastModified),
        FileSizeKey := Number(o.fileSize)]
  }

  /** `(String) map.get(key)`: an absent key or a null is `null`; a number cannot be cast. */
  function StringEntry(m: OffsetMap, key: string): (r: Result<Option<string>>)
    ensures r.Err? <==> key in m && m[key].Number?
    ensures r == Ok(None) <==> key !in m || m[key].Null?
  {
    if key !in m then Ok(None)
    else match m[key]
      case Text(s) => Ok(Some(s))
      case Null => Ok(None)
      case Number(_) => Err("java.lang.ClassCastException")
  }

  /**
   * `((Number) map.getOrDefault(key, 0L)).longValue()`: an absent key reads
   * as 0, a key mapped to null fails on `longValue`, a string cannot be cast.
   */
  function NumberEntry(m: OffsetMap, key: string): (r: Result<int>)
    ensures key !in m ==> r == Ok(0)
    ensures r.Err? <==> key in m && !m[key].Number?
    ensures key in m && m[key].Number? ==> r == Ok(m[key].number)
  {
    if key !in m then Ok(0)
    else match m[key]
      case Number(n) => Ok(n)
      case Null => Err("java.lang.NullPointerException")
      case Text(_) => Err("java.lang.ClassCastException")
  }

  /**
   * `FileOffset.fromMap`: no map or an empty one means no offset; otherwise
   * the five entries are read in constructor-argument order and the first
   * one that fails decides the exception.
   */
  function FromMap(m: Option<OffsetMap>): (r: Result<Option<FileOffset>>)
    ensures r == Ok(None) <==> m.None? || m.value == map[]
    ensures r.Ok? && r.value.Some? ==>
      var o := r.value.value;
      StringEntry(m.value, FilenameKey) == Ok(o.filename)
      && StringEntry(m.value, FileHashKey) == Ok(o.fileHash)
      && NumberEntry(m.value, LineNumberKey) == Ok(o.lineNumber)
      && NumberEntry(m.value, LastModifiedKey) == Ok(o.lastModified)
      && NumberEntry(m.value, FileSizeKey) == Ok(o.fileSize)
  {
    if m.None? || m.value == map[] then Ok(None)
    else
      var e := m.value;
      var name := StringEntry(e, FilenameKey);
      var hash := StringEntry(e, FileHashKey);
      var line := NumberEntry(e, LineNumberKey);
      var modified := NumberEntry(e, LastModifiedKey);
      var size := NumberEntry(e, FileSizeKey);
      if name.Err? then Err(name.message)
      else if hash.Err? then Err(hash.message)
      else if line.Err? then Err(line.message)
      else if modified.Err? then Err(modified.message)
      else if size.Err? then Err(size.message)
      else Ok(Some(FileOffset(name.value, hash.value, line.value, modified.value, size.value)))
  }

  /** An offset read back from the map it was stored as is the same offset. */
  lemma FromMapToMap(o: FileOffset)
    ensures FromMap(Some(ToMap(o))) == Ok(Some(o))
  {
    var m := ToMap(o);
    assert FilenameKey in m;
    assert m != map[];
  }

  /** A map holding only a file name resumes from line 0 of a file of size 0. */
  lemma FromMapDefaults(name: string)
    ensures FromMap(Some(map[FilenameKey := Text(name)]))
      == Ok(Some(FileOffset(Some(name), None, 0, 0, 0)))
  {
    var m := map[FilenameKey := Text(name)];
    assert m != map[] by { assert FilenameKey in m; }
    assert FileHashKey !in m && LineNumberKey !in m && LastModifiedKey !in m && FileSizeKey !in m;
  }

  /** `FileOffset.isSameFile`: the other offset exists and has the same hash and size. */
  predicate IsSameFile(self: FileOffset, other: Option<FileOffset>)
  {
    other.Some? && self.fileHash == other.value.fileHash && self.fileSize == other.value.fileSize
  }

  /** `FileOffset.equals`: all five fields are equal. */
  predicate Equals(self: FileOffset, other: Option<FileOffset>)
  {
    other.Some?
    && self.lineNumber == other.value.lineNumber
    && self.lastModified == other.value.lastModified
    && self.fileSize == other.value.fileSize
    && self.filename == other.value.filename
    && self.fileHash == other.value.fileHash
  }

  /** `equals` agrees with value equality of the offsets. */
  lemma EqualsIsIdentity(a: FileOffset, b: FileOffset)
    ensures Equals(a, Some(b)) <==> a == b
  {
  }

  /** Same-file is an equivalence on offsets and is weaker than equality. */
  lemma SameFileEquivalence(a: FileOffset, b: FileOffset, c: FileOffset)
    ensures IsSameFile(a, Some(a))
    ensures IsSameFile(a, Some(b)) ==> IsSameFile(b, Some(a))
    ensures IsSameFile(a, Some(b)) && IsSameFile(b, Some(c)) ==> IsSameFile(a, Some(c))
    ensures Equals(a, Some(b)) ==> IsSameFile(a, Some(b))
    ensures !IsSameFile(a, None) && !Equals(a, None)
  {
  }

  /** Two offsets into the same file at different lines are the same file but not equal. */
  lemma SameFileNotEqual()
    ensures var a := FileOffset(Some("data.txt"), Some("abc"), 10, 5, 100);
            var b := FileOffset(Some("other.txt"), Some("abc"), 20, 6, 100);
            IsSameFile(a, Some(b)) && !Equals(a, Some(b))
  {
  }

  /** Hashes are compared null-safely: two offsets without a hash and of equal size are the same file. */
  lemma NullHashesMatch(a: FileOffset, b: FileOffset)
    requires a.fileHash.None? && b.fileHash.None? && a.fileSize == b.fileSize
    ensures IsSameFile(a, Some(b))
  {
  }
}
