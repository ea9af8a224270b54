/** The hasher: the 32-bit lookup keys of a path (a checksum of its folder and
    of its file name, both lower-cased, and of the whole path as given) and
    the 64-bit checksum of a text. The checksum algorithms themselves are
    parameters: `crc32` stands for `Crc32.Get` over characters and `crc64`
    for `Crc64.Hash` over bytes. */
module Hasher {
  import opened Primitives

  // ---------------------------------------------------------------------------
  // Lower-casing
  // ---------------------------------------------------------------------------

  predicate IsLowerCase(s: string) {
    forall i | 0 <= i < |s| :: !('A' <= s[i] <= 'Z')
  }

  predicate IsAscii(s: string) {
    forall i | 0 <= i < |s| :: s[i] as int < 0x80
  }

  function ToLowerChar(c: char): char {
    if 'A' <= c <= 'Z' then (c as int - 'A' as int + 'a' as int) as char else c
  }

  /** `ToLowerUnsafe()` and, on ASCII text, `ToLowerInvariant()`: every
      capital A-Z becomes its small letter and every other character,
      `/` included, stays where it is. */
  function ToLower(s: string): (r: string)
    ensures |r| == |s| && IsLowerCase(r)
    ensures forall i | 0 <= i < |s| :: (r[i] == '/') == (s[i] == '/')
    ensures forall i | 0 <= i < |s| :: ToLowerChar(r[i]) == ToLowerChar(s[i])
  {
    seq(|s|, i requires 0 <= i < |s| => ToLowerChar(s[i]))
  }

  /** Text without capitals is left as it is. */
  lemma ToLowerKeepsLowerCase(s: string)
    requires IsLowerCase(s)
    ensures ToLower(s) == s
  {
    assert forall i | 0 <= i < |s| :: ToLower(s)[i] == s[i];
  }

  /** Two texts have the same lower-case form exactly when they agree letter
      by letter up to case. */
  lemma ToLowerEqualIffSameUpToCase(a: string, b: string)
    ensures ToLower(a) == ToLower(b) <==>
      |a| == |b| && forall i | 0 <= i < |a| :: ToLowerChar(a[i]) == ToLowerChar(b[i])
  {
    if |a| == |b| && forall i | 0 <= i < |a| :: ToLowerChar(a[i]) == ToLowerChar(b[i]) {
      assert forall i | 0 <= i < |a| :: ToLower(a)[i] == ToLower(b)[i];
    }
  }

  // ---------------------------------------------------------------------------
  // Path hashes
  // ---------------------------------------------------------------------------

  datatype FolderFileHashes = FolderFileHashes(folderHash: uint32, fileHash: uint32)

  datatype AllHashes = AllHashes(folderHash: uint32, fileHash: uint32, fullHash: uint32)

  /** The checksum of the path exactly as given. */
  function CalcFullHash(pathStr: string, crc32: string -> uint32): uint32
  {
    crc32(pathStr)
  }

  /** The checksums of the lower-cased path's folder and file name, split at
      its last `/`; a path without `/` makes the folder range end at -1. */
  function CalcHashes(pathStr: string, crc32: string -> uint32): (r: Result<FolderFileHashes>)
    ensures r.Ok? <==> '/' in pathStr
    ensures r.Throws? ==> r.error == ArgumentOutOfRange(0, -1)
  {
    var pathLower := ToLower(pathStr);
    var splitter := LastIndexOf(pathLower, '/');
    var folderStr :- Slice(pathLower, 0, splitter);
    // splitter is a position in the path here, so the file range is in bounds
    var fileStr := pathLower[splitter + 1..];
    Ok(FolderFileHashes(crc32(folderStr), crc32(fileStr)))
  }

  /** The folder and file hashes of the path together with its full hash. */
  function CalcAllHashes(path: string, crc32: string -> uint32): (r: Result<AllHashes>)
    ensures r.Ok? <==> '/' in path
    ensures r.Throws? ==> r.error == ArgumentOutOfRange(0, -1)
    ensures r.Ok? ==> CalcHashes(path, crc32) == Ok(FolderFileHashes(r.value.folderHash, r.value.fileHash))
    ensures r.Ok? ==> r.value.fullHash == crc32(path)
  {
    var parts :- CalcHashes(path, crc32);
    Ok(AllHashes(parts.folderHash, parts.fileHash, CalcFullHash(path, crc32)))
  }

  /** Whenever the lower-cased path is a folder, a `/` and a file name
      without `/`, the hashes are those of that folder and that file name. */
  lemma CalcHashesSplitsAtLastSlash(pathStr: string, crc32: string -> uint32, folder: string, file: string)
    requires ToLower(pathStr) == folder + "/" + file && '/' !in file
    ensures CalcHashes(pathStr, crc32) == Ok(FolderFileHashes(crc32(folder), crc32(file)))
  {
    var pathLower := ToLower(pathStr);
    var splitter := LastIndexOf(pathLower, '/');
    assert pathLower[|folder|] == '/';
    assert forall i | |folder| < i < |pathLower| :: pathLower[i] == file[i - |folder| - 1];
    assert splitter == |folder|;
    assert pathLower[0..splitter] == folder;
    assert pathLower[splitter + 1..] == file;
  }

  /** The three hashes of a path that lower-cases to folder + `/` + file,
      with no `/` in file: the folder's, the file name's and the whole
      path's as given. */
  lemma CalcAllHashesSplitsAtLastSlash(path: string, crc32: string -> uint32, folder: string, file: string)
    requires ToLower(path) == folder + "/" + file && '/' !in file
    ensures CalcAllHashes(path, crc32) == Ok(AllHashes(crc32(folder), crc32(file), crc32(path)))
  {
    CalcHashesSplitsAtLastSlash(path, crc32, folder, file);
  }

  /** Every path with a `/` has such a split, at its last `/`. */
  lemma LowerPathSplits(pathStr: string)
    requires '/' in pathStr
    ensures var s := ToLower(pathStr); var k := LastIndexOf(s, '/');
      0 <= k && s == s[..k] + "/" + s[k + 1..] && '/' !in s[k + 1..]
  {
    var s := ToLower(pathStr);
    var k := LastIndexOf(s, '/');
    var j :| 0 <= j < |pathStr| && pathStr[j] == '/';
    assert s[j] == '/';
    assert s == s[..k] + [s[k]] + s[k + 1..];
  }

  /** The folder and file hashes do not depend on case. */
  lemma CalcHashesIgnoresCase(a: string, b: string, crc32: string -> uint32)
    requires ToLower(a) == ToLower(b)
    ensures CalcHashes(a, crc32) == CalcHashes(b, crc32)
    ensures CalcHashes(a, crc32) == CalcHashes(ToLower(a), crc32)
  {
    ToLowerKeepsLowerCase(ToLower(a));
  }

  /** The folder and file hashes of a path are those of its lower-case form,
      while its full hash is taken over the path as given. */
  lemma CalcAllHashesCaseAsymmetry(path: string, crc32: string -> uint32)
    requires '/' in path
    ensures CalcAllHashes(path, crc32).Ok? && CalcAllHashes(ToLower(path), crc32).Ok?
    ensures var given, lower := CalcAllHashes(path, crc32).value, CalcAllHashes(ToLower(path), crc32).value;
      && given.folderHash == lower.folderHash
      && given.fileHash == lower.fileHash
      && given.fullHash == CalcFullHash(path, crc32)
      && lower.fullHash == CalcFullHash(ToLower(path), crc32)
  {
    CalcHashesIgnoresCase(path, ToLower(path), crc32);
    var k :| 0 <= k < |path| && path[k] == '/';
    assert ToLower(path)[k] == '/';
  }

  /** With a checksum that tells `A` from `a`, two paths that differ only in
      case share their folder and file hashes but not their full hash. */
  lemma FullHashSeesCase()
    ensures var crc32 := (s: string) => if |s| > 0 && s[0] == 'A' then 1 as uint32 else 0;
      && CalcAllHashes("A/b", crc32).Ok? && CalcAllHashes("a/b", crc32).Ok?
      && CalcAllHashes("A/b", crc32).value.folderHash == CalcAllHashes("a/b", crc32).value.folderHash
      && CalcAllHashes("A/b", crc32).value.fileHash == CalcAllHashes("a/b", crc32).value.fileHash
      && CalcAllHashes("A/b", crc32).value.fullHash != CalcAllHashes("a/b", crc32).value.fullHash
  {
    var crc32 := (s: string) => if |s| > 0 && s[0] == 'A' then 1 as uint32 else 0;
    CalcAllHashesCaseAsymmetry("A/b", crc32);
    assert ToLower("A/b") == "a/b";
  }

  // ---------------------------------------------------------------------------
  // Extended (64-bit) hash
  // ---------------------------------------------------------------------------

  /** The eight bytes `Crc64.Hash` writes. */
  type Digest = s: seq<byte> | |s| == 8 witness [0, 0, 0, 0, 0, 0, 0, 0]

  /** `Encoding.ASCII` on one character: its code below 0x80, `?` otherwise. */
  function AsciiByte(c: char): (b: byte)
    ensures b < 0x80
    ensures b as int == c as int <==> c as int < 0x80
    ensures c as int >= 0x80 ==> b == '?' as int as byte
  {
    if c as int < 0x80 then c as int as byte else '?' as int as byte
  }

  /** The bytes `Encoding.ASCII.GetBytes` writes for a text, one per character. */
  function AsciiBytes(text: string): (data: seq<byte>)
    ensures |data| == |text|
    ensures forall i | 0 <= i < |text| :: data[i] < 0x80
  {
    seq(|text|, i requires 0 <= i < |text| => AsciiByte(text[i]))
  }

  /** Reading ASCII bytes back as characters. */
  function AsciiChars(data: seq<byte>): (text: string)
    ensures |text| == |data|
  {
    seq(|data|, i requires 0 <= i < |data| => data[i] as int as char)
  }

  /** ASCII text survives the encoding unchanged. */
  lemma AsciiRoundTrip(text: string)
    requires IsAscii(text)
    ensures AsciiChars(AsciiBytes(text)) == text
  {
    assert forall i | 0 <= i < |text| :: AsciiChars(AsciiBytes(text))[i] == text[i];
  }

  /** The number bytes denote with the least significant byte first. */
  function LittleEndian(b: seq<byte>): (v: nat)
    ensures v < Pow2(8 * |b|)
  {
    if |b| == 0 then 0
    else
      Pow2Sum(8, 8 * (|b| - 1));
      Pow2Values();
      b[0] as nat + 0x100 * LittleEndian(b[1..])
  }

  /** The n bytes of v, least significant first (`BitConverter.GetBytes`). */
  function LittleEndianBytes(v: nat, n: nat): (b: seq<byte>)
    ensures |b| == n
  {
    if n == 0 then [] else [(v % 0x100) as byte] + LittleEndianBytes(v / 0x100, n - 1)
  }

  lemma {:induction false} LittleEndianBytesOfValue(b: seq<byte>)
    ensures LittleEndianBytes(LittleEndian(b), |b|) == b
  {
    if |b| > 0 {
      LittleEndianBytesOfValue(b[1..]);
    }
  }

  lemma {:induction false} LittleEndianValueOfBytes(v: nat, n: nat)
    requires v < Pow2(8 * n)
    ensures LittleEndian(LittleEndianBytes(v, n)) == v
  {
    if n > 0 {
      Pow2Sum(8, 8 * (n - 1));
      Pow2Values();
      LittleEndianValueOfBytes(v / 0x100, n - 1);
      var b := LittleEndianBytes(v, n);
      assert b[1..] == LittleEndianBytes(v / 0x100, n - 1);
    }
  }

  lemma Pow2Of64()
    ensures Pow2(64) == 0x1_0000_0000_0000_0000
  {
    Pow2Values();
    Pow2Sum(32, 32);
  }

  /** `BitConverter.ToUInt64` on a little-endian machine. */
  function ToUInt64(hash: Digest): (r: uint64)
    ensures LittleEndianBytes(r as nat, 8) == hash
  {
    Pow2Of64();
    LittleEndianBytesOfValue(hash);
    LittleEndian(hash) as uint64
  }

  /** The 64-bit value holds the eight digest bytes, least significant first,
      and nothing else: reading and writing them back gives the same bytes. */
  lemma ToUInt64RoundTrip(hash: Digest, x: uint64)
    ensures LittleEndianBytes(ToUInt64(hash) as nat, 8) == hash
    ensures ToUInt64(LittleEndianBytes(x as nat, 8)) == x
  {
    LittleEndianBytesOfValue(hash);
    Pow2Of64();
    LittleEndianValueOfBytes(x as nat, 8);
  }

  /** What `CalcExtendedHash` computes. */
  function ExtendedHash(text: string, crc64: seq<byte> -> Digest): (r: uint64)
    ensures LittleEndianBytes(r as nat, 8) == crc64(AsciiBytes(text))
  {
    ToUInt64(crc64(AsciiBytes(text)))
  }

  /** What `CalcExtendedHashWithLower` computes. */
  function ExtendedHashWithLower(text: string, crc64: seq<byte> -> Digest): (r: uint64)
    requires IsAscii(text)
    ensures LittleEndianBytes(r as nat, 8) == crc64(AsciiBytes(ToLower(text)))
  {
    ExtendedHash(ToLower(text), crc64)
  }

  /** `Encoding.ASCII.GetBytes(chars, bytes)`: writes the encoding of the
      characters to the front of the buffer and returns how many it wrote. */
  method GetAsciiBytes(chars: string, bytes: array<byte>) returns (count: int)
    requires |chars| <= bytes.Length
    modifies bytes
    ensures count == |chars|
    ensures bytes[..count] == AsciiBytes(chars)
    ensures bytes[count..] == old(bytes[count..])
  {
    forall i | 0 <= i < |chars| {
      bytes[i] := AsciiByte(chars[i]);
    }
    count := |chars|;
  }

  /** `Crc64.Hash(source, destination)`: writes the eight digest bytes of the
      source to the front of the destination and returns 8. */
  method Crc64Hash(source: array<byte>, destination: array<byte>, crc64: seq<byte> -> Digest)
    returns (written: int)
    requires 8 <= destination.Length
    modifies destination
    ensures written == 8
    ensures destination[..8] == crc64(old(source[..]))
    ensures destination[8..] == old(destination[8..])
  {
    var digest := crc64(source[..]);
    forall i | 0 <= i < 8 {
      destination[i] := digest[i];
    }
    written := 8;
  }

  /** The 64-bit checksum of the text's ASCII bytes, as given. */
  method CalcExtendedHash(fullText: string, crc64: seq<byte> -> Digest) returns (r: uint64)
    ensures r == ExtendedHash(fullText, crc64)
  {
    var data := new byte[|fullText|];
    var count := GetAsciiBytes(fullText, data);
    var hash := new byte[8];
    var written := Crc64Hash(data, hash, crc64);
    assert data[..] == AsciiBytes(fullText);
    assert hash[..] == crc64(AsciiBytes(fullText));
    r := ToUInt64(hash[..]);
  }

  /** The 64-bit checksum of the text's ASCII bytes after lower-casing it. */
  method CalcExtendedHashWithLower(fullText: string, crc64: seq<byte> -> Digest) returns (r: uint64)
    requires IsAscii(fullText)
    ensures r == ExtendedHashWithLower(fullText, crc64)
  {
    var tText := ToLower(fullText);
    var data := new byte[|tText|];
    var count := GetAsciiBytes(tText, data);
    var hash := new byte[8];
    var written := Crc64Hash(data, hash, crc64);
    assert data[..] == AsciiBytes(tText);
    assert hash[..] == crc64(AsciiBytes(tText));
    r := ToUInt64(hash[..]);
  }

  /** On text without capitals both variants agree. */
  lemma ExtendedHashWithLowerOnLowerCase(text: string, crc64: seq<byte> -> Digest)
    requires IsAscii(text) && IsLowerCase(text)
    ensures ExtendedHashWithLower(text, crc64) == ExtendedHash(text, crc64)
  {
    ToLowerKeepsLowerCase(text);
  }

  /** The lower-casing variant does not depend on case. */
  lemma ExtendedHashWithLowerIgnoresCase(a: string, b: string, crc64: seq<byte> -> Digest)
    requires IsAscii(a) && IsAscii(b)
    requires |a| == |b| && forall i | 0 <= i < |a| :: ToLowerChar(a[i]) == ToLowerChar(b[i])
    ensures ExtendedHashWithLower(a, crc64) == ExtendedHashWithLower(b, crc64)
  {
    ToLowerEqualIffSameUpToCase(a, b);
  }

  /** With a checksum that tells `A` from `a`, the two variants differ on "A". */
  lemma ExtendedHashSeesCase()
    ensures var crc64: seq<byte> -> Digest :=
              (d: seq<byte>) => if |d| > 0 && d[0] == 0x41 then [1, 0, 0, 0, 0, 0, 0, 0] else [0, 0, 0, 0, 0, 0, 0, 0];
      ExtendedHash("A", crc64) != ExtendedHashWithLower("A", crc64)
  {
    var crc64: seq<byte> -> Digest :=
      (d: seq<byte>) => if |d| > 0 && d[0] == 0x41 then [1, 0, 0, 0, 0, 0, 0, 0] else [0, 0, 0, 0, 0, 0, 0, 0];
    assert AsciiBytes("A") == [0x41];
    assert ToLower("A") == "a";
    assert AsciiBytes("a") == [0x61];
    assert ToUInt64([1, 0, 0, 0, 0, 0, 0, 0]) == 1;
    assert ToUInt64([0, 0, 0, 0, 0, 0, 0, 0]) == 0;
  }
}
