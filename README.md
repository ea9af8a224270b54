# ResLogger2 path utilities in Dafny

ResLogger2 collects the file paths of a game's archive. Its `Utils` class, in
`src/Utils.cs`, turns a path into two kinds of lookup key.

- **Category id.** A 32-bit number derived from the path's first directory.
  Bits 16-23 hold the category number: `bg/` is 0x02, `cut` is 0x03, `cha`
  is 0x04, and so on. For background, cutscene and music paths, bits 0-15
  hold the expansion number (`ex<N>`) shifted left by 8. Background paths
  also add a two-digit zone number to those bits.
- **Hashes.** `CalcHashes` gives 32-bit checksums of the lower-cased
  folder and file name, split at the last `/`. `CalcAllHashes` adds a
  checksum of the path exactly as given. `CalcExtendedHash` and
  `CalcExtendedHashWithLower` give a 64-bit checksum of a text's ASCII
  bytes, read back as a little-endian `ulong`.

The project has three modules:

- `Primitives` holds the .NET building blocks the code relies on:
  - `uint`, `ulong` and `byte`;
  - `<<` with its count taken modulo 32, unchecked `+`, and `|`;
  - span indexing and slicing, with the exceptions they throw;
  - `LastIndexOf` and `uint.Parse`.
- `Categorizer` holds `GetCategoryIdForPath` and its two sub-id helpers.
  It also gives the taxonomy as a table of token, category number and
  sub-id kind, and proves the id layout against that table.
- `Hasher` holds the lower-casing, the three path-hash functions and the
  two extended-hash methods. The extended-hash methods fill byte arrays
  in place, as the C# code fills its `stackalloc` buffers.

The code reports bad input through .NET exceptions, and the model returns
each of them as a `Throws(...)` result carrying the offending index, range
or text:

- `IndexOutOfRangeException` when a path is too short for the character
  the code looks at;
- `ArgumentOutOfRangeException` when a `bg/` path ends inside its two-digit
  zone number, and when `CalcHashes` is given a path without `/`;
- `FormatException` when `uint.Parse` meets a non-digit, and
  `OverflowException` when the number exceeds `uint.MaxValue`.

Other inputs are not rejected. `Encoding.ASCII` writes `?` for each
non-ASCII character. A cutscene or music path whose expansion directory
has `/` at neither expected offset gets sub-id 0.

Two behaviours of the code are proved outright:

- A `bg/e…` path with `/` at neither offset 6 nor offset 7 always throws.
  The fallback parses the zone at offset 3, which holds the `e`
  (`BgUnrecognisedExpansionThrows`).
- A path starting with no known token gets id 0, the same as a `com`
  path (`UnknownPrefixLooksCommon`).

## Model

| member | source | states |
|---|---|---|
| Categorizer.GetCategoryIdForPath | src/Utils.cs:30-56 | both overloads; only `bg/`, `cut` and `mus` paths can throw or have a non-zero low half, every other path gets a multiple of 0x10000; the full contract is in CategoryIdFromTable, CategoryIdLayout and UnknownPrefixLooksCommon |
| Categorizer.StartsWith | src/Utils.cs:39-53 | the ordinal prefix test every arm uses: the token is a prefix of the path, character by character; its use in the switch is stated through NoEarlierToken, AtMostOneCategoryMatches and CategoryIdFromTable |
| Categorizer.TokensAreDistinct | src/Utils.cs:14-28 | the fifteen tokens are three characters long and pairwise distinct |
| Categorizer.AtMostOneCategoryMatches | src/Utils.cs:14-28 | no path starts with two different tokens |
| Categorizer.NoEarlierToken | src/Utils.cs:37-55 | a path starting with the i-th token starts with no earlier token, so the order of the arms never matters |
| Categorizer.CategoryIdFromTable | src/Utils.cs:37-55 | every arm's id is the table's sub-id for the category, or'ed with the category number << 16; a throwing sub-id propagates |
| Categorizer.CategoryIdLayout | src/Utils.cs:37-55 | the call throws exactly when the sub-id throws, with the same exception; otherwise bits 24-31 are clear, bits 16-23 are the matched category number and bits 0-15 are the sub-id |
| Categorizer.PlainCategoryId | src/Utils.cs:39-53 | a path of a category without a sub-id gets exactly its category number << 16 |
| Categorizer.UnknownPrefixLooksCommon | src/Utils.cs:39-54 | a path starting with no token gets 0, as does every `com` path |
| Categorizer.PlainCategoryExamples | src/Utils.cs:39-43 | `chara/…` gives 0x040000 and `common/…` gives 0 |
| Categorizer.UnknownPrefixExample | src/Utils.cs:54 | `zzz/a.tex` gives 0 |
| Categorizer.CombineIds | src/Utils.cs:41-51 | a sub-id below 0x10000 or'ed with a category number << 16 equals number * 0x10000 + sub-id |
| Categorizer.GetBgSubCategoryId | src/Utils.cs:58-87 | a background sub-id is below 0x10000 |
| Categorizer.BgSubIdCases | src/Utils.cs:58-87 | every outcome of the background sub-id, decided by offsets 3, 6 and 7: the index it throws at, 0, a non-digit expansion rejected by `uint.Parse`, a zone cut short (`ArgumentOutOfRange(7, 2)` or `(8, 2)`), expansion * 0x100 + zone, a non-digit zone, or the fallback's `FormatException` at offset 3 |
| Categorizer.BgWithoutExpansion | src/Utils.cs:64-65 | `bg/` alone throws at index 3; a `bg/` path whose fourth character is not `e` gets exactly 0x020000 |
| Categorizer.ExpansionShift | src/Utils.cs:70-75 | a one- or two-digit expansion number is below 100, and `<< 8` multiplies it by 0x100 without loss |
| Categorizer.BgSubIdOneDigit | src/Utils.cs:68-72 | with `/` at offset 6 and one digit at 5, the sub-id is digit * 0x100 + zone |
| Categorizer.BgSubIdTwoDigits | src/Utils.cs:73-77 | with `/` at offset 7 and two digits at 5-6, the sub-id is number * 0x100 + zone |
| Categorizer.BgSegmentId | src/Utils.cs:84-86 | the result lies between expacId and expacId + 99 when no wrap-around is possible |
| Categorizer.BgSegmentCases | src/Utils.cs:84-86 | the segment step adds the two-digit zone to expacId, or throws `FormatException` for a non-digit zone |
| Categorizer.BgSumIsOr | src/Utils.cs:86 | adding a zone below 100 to an expansion << 8 equals or'ing them |
| Categorizer.BgUnrecognisedExpansionThrows | src/Utils.cs:78-84 | a `bg/e` path with `/` at neither offset 6 nor offset 7 throws `FormatException` on the two characters at offset 3 |
| Categorizer.BgSubIdRoundTrip | src/Utils.cs:68-86 | `bg/ex<e>/<zone>…` yields sub-id e * 0x100 + zone for every e and zone below 100 |
| Categorizer.BgPathRoundTrip | src/Utils.cs:41 | `bg/ex<e>/<zone>…` gets id 0x020000 + e * 0x100 + zone; category, expansion and zone read back from bits 16-23, 8-15 and 0-7 |
| Categorizer.BgExampleOneDigit | src/Utils.cs:68-72 | `bg/ex2/03/bg.lgb` gives 0x020203 |
| Categorizer.BgExampleTwoDigits | src/Utils.cs:73-77 | `bg/ex12/07/bg.lgb` gives 0x020C07 |
| Categorizer.BgExampleNoExpansion | src/Utils.cs:64-65 | `bg/ffxiv/sea_s1/bg.lgb` gives 0x020000 |
| Categorizer.GetNonBgSubCategoryId | src/Utils.cs:89-101 | a cutscene or music sub-id is below 0x10000 with its low byte clear |
| Categorizer.NonBgSubIdCases | src/Utils.cs:89-101 | every outcome, by offsets n, n + 3 and n + 4: an index it throws at, 0, one or two digits * 0x100, a `FormatException`, or 0 when neither offset holds `/` |
| Categorizer.ExpansionSubIdRoundTrip | src/Utils.cs:94-98 | `<dir>ex<e>/…` yields e * 0x100 for every e below 100 |
| Categorizer.CutPathRoundTrip | src/Utils.cs:42 | `cut/ex<e>/…` gets id 0x030000 + e * 0x100 |
| Categorizer.MusicPathRoundTrip | src/Utils.cs:51 | `music/ex<e>/…` gets id 0x0C0000 + e * 0x100 |
| Categorizer.CutExample | src/Utils.cs:42 | `cut/ex1/cut.cutb` gives 0x030100 |
| Categorizer.MusicExample | src/Utils.cs:51 | `music/ex3/bgm.scd` gives 0x0C0300 |
| Primitives.At | src/Utils.cs:64-97 | the span indexer: the character at the index when it lies inside the span, `IndexOutOfRangeException` for that index otherwise |
| Primitives.Slice | src/Utils.cs:84-114 | `Slice` and the range `[..splitter]`, where the range may fall outside the span: the `length` characters from `start` when the range lies inside the span, `ArgumentOutOfRangeException` for that range otherwise |
| Primitives.LastIndexOf | src/Utils.cs:113 | the result is -1 or a position holding the character, and no later position holds it |
| Primitives.ParseUInt | src/Utils.cs:84 | a parsed value is below 10^length; a failure is `FormatException` or `OverflowException` on the text |
| Primitives.ParseUIntRoundTrip | src/Utils.cs:84 | parsing the decimal form of any uint gives it back |
| Primitives.ShiftLeft | src/Utils.cs:41-98 | `<<` on a uint takes the count modulo 32 and is multiplication by 2^count whenever nothing is shifted past bit 31 |
| Primitives.WrappingAdd | src/Utils.cs:86 | unchecked `+` is the sum when it fits in 32 bits and the sum less 2^32 otherwise |
| Primitives.BitOr | src/Utils.cs:41-51 | `\|` on uints sets exactly the bits set in either operand |
| Primitives.OrBits | src/Utils.cs:41 | bitwise or sets exactly the bits set in either operand |
| Primitives.OrDisjoint | src/Utils.cs:41 | bitwise or of operands with no common bit positions is their sum |
| Primitives.OrBound | src/Utils.cs:41 | bitwise or of two values below 2^k is below 2^k |
| Hasher.ToLower | src/Utils.cs:111 | lower-casing keeps the length and the positions of `/`, leaves no capital, and keeps every character's case-folded form |
| Hasher.ToLowerKeepsLowerCase | src/Utils.cs:111 | text without capitals is unchanged |
| Hasher.ToLowerEqualIffSameUpToCase | src/Utils.cs:111 | two texts lower-case alike exactly when they agree character by character up to case |
| Hasher.CalcHashes | src/Utils.cs:109-121 | succeeds exactly when the path contains `/`; otherwise throws `ArgumentOutOfRangeException` for range (0, -1) |
| Hasher.CalcHashesSplitsAtLastSlash | src/Utils.cs:111-120 | when the lower-cased path is folder + `/` + file with no `/` in file, the hashes are those of folder and file |
| Hasher.LowerPathSplits | src/Utils.cs:113-115 | every path with a `/` is its part before the last `/`, that `/` and a part without `/` |
| Hasher.CalcHashesIgnoresCase | src/Utils.cs:109-121 | paths with the same lower-case form get the same folder and file hashes |
| Hasher.CalcFullHash | src/Utils.cs:103-107 | the checksum of the path as given, without lower-casing; stated through CalcAllHashes, CalcAllHashesCaseAsymmetry and FullHashSeesCase |
| Hasher.CalcAllHashes | src/Utils.cs:123-127 | succeeds exactly when the path contains `/`, throwing as `CalcHashes` does; its folder and file hashes are those `CalcHashes` returns and its full hash is the checksum of the path as given |
| Hasher.CalcAllHashesSplitsAtLastSlash | src/Utils.cs:123-127 | when the lower-cased path is folder + `/` + file with no `/` in file, the result is the checksums of folder, file and the path as given |
| Hasher.CalcAllHashesCaseAsymmetry | src/Utils.cs:103-127 | a path and its lower-case form share folder and file hashes, while each full hash is taken over its own spelling |
| Hasher.FullHashSeesCase | src/Utils.cs:103-107 | under a checksum that tells `A` from `a`, `A/b` and `a/b` share folder and file hashes but not the full hash |
| Hasher.AsciiByte | src/Utils.cs:138 | one character's byte is below 0x80; it equals the character's code exactly when the character is ASCII, and is `?` otherwise |
| Hasher.AsciiBytes | src/Utils.cs:138 | one byte per character, each below 0x80 |
| Hasher.AsciiRoundTrip | src/Utils.cs:138 | ASCII text is encoded without loss |
| Hasher.GetAsciiBytes | src/Utils.cs:138 | writes the text's ASCII bytes to the front of the buffer, returns their count and leaves the rest untouched |
| Hasher.Crc64Hash | src/Utils.cs:140 | writes the eight digest bytes of the source to the front of the destination and returns 8 |
| Hasher.LittleEndian | src/Utils.cs:141 | the value of n bytes is below 2^(8n) |
| Hasher.LittleEndianBytesOfValue | src/Utils.cs:141 | writing the value of a byte sequence back gives the same bytes |
| Hasher.LittleEndianValueOfBytes | src/Utils.cs:141 | reading back the n bytes of a value below 2^(8n) gives the value |
| Hasher.ToUInt64 | src/Utils.cs:141 | the eight bytes of the `ulong`, least significant first, are the digest bytes it was read from |
| Hasher.ToUInt64RoundTrip | src/Utils.cs:141 | the `ulong` holds the eight digest bytes, least significant first, and every `ulong` arises this way |
| Hasher.CalcExtendedHash | src/Utils.cs:144-151 | the result is the digest of the text's ASCII bytes read as a little-endian `ulong` |
| Hasher.CalcExtendedHashWithLower | src/Utils.cs:134-142 | the result is the same for the lower-cased text |
| Hasher.ExtendedHash | src/Utils.cs:146-150 | the bytes of the extended hash, least significant first, are the checksum of the text's ASCII bytes |
| Hasher.ExtendedHashWithLower | src/Utils.cs:136-141 | the bytes of the lower-casing variant, least significant first, are the checksum of the lower-cased text's ASCII bytes |
| Hasher.ExtendedHashWithLowerOnLowerCase | src/Utils.cs:134-151 | on ASCII text without capitals both variants agree |
| Hasher.ExtendedHashWithLowerIgnoresCase | src/Utils.cs:134-142 | the lower-casing variant gives texts that differ only in case the same hash |
| Hasher.ExtendedHashSeesCase | src/Utils.cs:134-151 | under a checksum that tells `A` from `a`, the two variants differ on `A` |

## Left out

- `GetUploadDataObjectFromString` (src/Utils.cs:129-132) and the unused schema string (src/Utils.cs:10-11) are left out. They are JSON deserialisation through a foreign library.
- The checksum algorithms behind `Crc32.Get` and `Crc64.Hash` are not in this code. Every hash function takes them as a parameter, `crc32` or `crc64`, and every property holds for any checksum.
- Primitives.ParseUInt accepts exactly the non-empty strings of ASCII digits. It is stricter than `uint.Parse`, which also accepts surrounding white space, a leading sign written with the current culture's sign symbols, and trailing NUL characters; like the model, `uint.Parse` takes only the ASCII digits `0`-`9`. At the five call sites the text is one or two characters of a path, so the difference changes which such paths throw and which exception they throw. For example, `uint.Parse("-1")` throws `OverflowException`, while the model returns `Format("-1")`.
- Hasher.ToLower stands for `ToLowerUnsafe`, whose definition is not part of this model. It is taken to be a pure, length-preserving fold of `A`-`Z` to `a`-`z`. If the extension lower-cases the string in place, `CalcAllHashes` would take its full hash over the lower-cased path. The model does not capture that.
- Hasher.CalcExtendedHashWithLower and Hasher.ExtendedHashWithLower require ASCII text. The culture-invariant case mapping of `ToLowerInvariant` is not modelled, and some non-ASCII characters lower-case to ASCII letters (the Kelvin sign to `k`). `CalcExtendedHash` itself takes any text and models the `?` replacement.
- Characters outside the Basic Multilingual Plane are one character in the model but two UTF-16 units (a surrogate pair) in C#. The model does not capture the extended hashers' buffer length or the replacement bytes of such pairs. The offsets read through `At` and `Slice`, and the position `LastIndexOf` returns, also count characters in the model but UTF-16 units in C#. So a `bg/`, `cut` or `music` path with such a character before offset n + 4 can get a different id or exception. For example, `bg/e` followed by an emoji and then `1/01/x` gets 0x020101 in the model. C# parses a low surrogate followed by `1` and throws `FormatException`. In `CalcHashes` the split still falls on the same `/`, because `/` is a single unit.
- Hasher.ToUInt64 assumes a little-endian machine, as `BitConverter.ToUInt64` behaves on the platforms the program targets.
- A null string is outside the model, since Dafny strings are never null. In C#, `AsSpan` turns null into an empty span, so `GetCategoryIdForPath` returns 0 and `CalcFullHash` checksums the empty text. `CalcExtendedHash` and `CalcExtendedHashWithLower` throw `NullReferenceException`, and what `CalcHashes` does depends on `ToLowerUnsafe`.
- The `stackalloc` buffers are modelled as freshly allocated arrays. Their stack lifetime has no observable effect.
