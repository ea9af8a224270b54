/** The path categoriser: maps a game path to its category id, a uint whose
    bits 16-23 hold the category of the path's first directory and whose bits
    0-15 hold an expansion and zone number for background, cutscene and music
    paths. */
module Categorizer {
  import opened Primitives

  const COMMON: string := "com"
  const BGCOMMON: string := "bgc"
  const BG: string := "bg/"
  const CUT: string := "cut"
  const CHARA: string := "cha"
  const SHADER: string := "sha"
  const UI: string := "ui/"
  const SOUND: string := "sou"
  const VFX: string := "vfx"
  const UI_SCRIPT: string := "ui_"
  const EXD: string := "exd"
  const GAME_SCRIPT: string := "gam"
  const MUSIC: string := "mus"
  const SQPACK_TEST: string := "_sq"
  const DEBUG: string := "_de"

  /** `span.StartsWith(value)`: an ordinal, character by character prefix test. */
  predicate StartsWith(span: string, value: string) {
    value <= span
  }

  /** Both overloads of `GetCategoryIdForPath`: a string and a span of chars
      are the same sequence of characters here. The first token the path
      starts with decides the category. */
  function GetCategoryIdForPath(gamePath: string): (r: Result<uint32>)
    // only background, cutscene and music paths can throw or carry a sub-id
    ensures r.Throws? ==> StartsWith(gamePath, BG) || StartsWith(gamePath, CUT) || StartsWith(gamePath, MUSIC)
    ensures !StartsWith(gamePath, BG) && !StartsWith(gamePath, CUT) && !StartsWith(gamePath, MUSIC) ==>
              r.Ok? && r.value % 0x1_0000 == 0
  {
    if StartsWith(gamePath, COMMON) then Ok(0x000000)
    else if StartsWith(gamePath, BGCOMMON) then Ok(0x010000)
    else if StartsWith(gamePath, BG) then
      var subId :- GetBgSubCategoryId(gamePath);
      Ok(BitOr(subId, ShiftLeft(0x02, 16)))
    else if StartsWith(gamePath, CUT) then
      var subId :- GetNonBgSubCategoryId(gamePath, 4);
      Ok(BitOr(subId, ShiftLeft(0x03, 16)))
    else if StartsWith(gamePath, CHARA) then Ok(0x040000)
    else if StartsWith(gamePath, SHADER) then Ok(0x050000)
    else if StartsWith(gamePath, UI) then Ok(0x060000)
    else if StartsWith(gamePath, SOUND) then Ok(0x070000)
    else if StartsWith(gamePath, VFX) then Ok(0x080000)
    else if StartsWith(gamePath, UI_SCRIPT) then Ok(0x090000)
    else if StartsWith(gamePath, EXD) then Ok(0x0A0000)
    else if StartsWith(gamePath, GAME_SCRIPT) then Ok(0x0B0000)
    else if StartsWith(gamePath, MUSIC) then
      var subId :- GetNonBgSubCategoryId(gamePath, 6);
      Ok(BitOr(subId, ShiftLeft(0x0C, 16)))
    else if StartsWith(gamePath, SQPACK_TEST) then Ok(0x120000)
    else if StartsWith(gamePath, DEBUG) then Ok(0x130000)
    else Ok(0)
  }

  /** The sub-id of a `bg/` path: expansion number << 8 plus the two-digit
      zone number that follows the expansion directory. */
  function GetBgSubCategoryId(gamePath: string): (r: Result<uint32>)
    ensures r.Ok? ==> r.value < 0x1_0000
  {
    var c3 :- At(gamePath, 3);
    if c3 != 'e' then Ok(0)
    else
      var c6 :- At(gamePath, 6);
      if c6 == '/' then
        // offset 6 exists, so the range 5..6 lies inside the path
        var digits := gamePath[5..6];
        var expac :- ParseUInt(digits);
        ExpansionShift(digits, expac);
        BgSegmentId(gamePath, ShiftLeft(expac, 8), 7)
      else
        var c7 :- At(gamePath, 7);
        if c7 == '/' then
          var digits := gamePath[5..7];
          var expac :- ParseUInt(digits);
          ExpansionShift(digits, expac);
          BgSegmentId(gamePath, ShiftLeft(expac, 8), 8)
        else
          BgSegmentId(gamePath, 0, 3)
  }

  /** The end of `GetBgSubCategoryId`: parse the two characters at
      segmentIdIndex and add them to expacId. */
  function BgSegmentId(gamePath: string, expacId: uint32, segmentIdIndex: int): (r: Result<uint32>)
    ensures r.Ok? && expacId as int + 100 <= UINT32_MODULUS ==>
              expacId <= r.value && r.value as int < expacId as int + 100
  {
    var digits :- Slice(gamePath, segmentIdIndex, 2);
    var segmentId :- ParseUInt(digits);
    Ok(WrappingAdd(expacId, segmentId))
  }

  /** The sub-id of a cutscene or music path whose first directory is
      firstDirLen characters long: expansion number << 8. */
  function GetNonBgSubCategoryId(gamePath: string, firstDirLen: int): (r: Result<uint32>)
    ensures r.Ok? ==> r.value < 0x1_0000 && r.value % 0x100 == 0
  {
    var c :- At(gamePath, firstDirLen);
    if c != 'e' then Ok(0)
    else
      var c3 :- At(gamePath, firstDirLen + 3);
      if c3 == '/' then
        // offsets firstDirLen and firstDirLen + 3 exist, so this range lies inside the path
        var digits := gamePath[firstDirLen + 2..firstDirLen + 3];
        var expac :- ParseUInt(digits);
        ExpansionShift(digits, expac);
        Ok(ShiftLeft(expac, 8))
      else
        var c4 :- At(gamePath, firstDirLen + 4);
        if c4 == '/' then
          var digits := gamePath[firstDirLen + 2..firstDirLen + 4];
          var expac :- ParseUInt(digits);
          ExpansionShift(digits, expac);
          Ok(ShiftLeft(expac, 8))
        else
          Ok(0)
  }

  /** An expansion number of at most two digits, shifted left by 8, lands in
      bits 8-15 without loss. */
  lemma ExpansionShift(digits: string, expac: uint32)
    requires |digits| <= 2 && ParseUInt(digits) == Ok(expac)
    ensures expac < 100
    ensures ShiftLeft(expac, 8) as int == expac as int * 0x100
  {
    assert Pow10(|digits|) <= 100;
    Pow2Values();
  }

  /** The shifted expansion number and a zone number below 100 share no bit,
      so the `+` that joins them in a background sub-id is the same as `|`. */
  lemma BgSumIsOr(expac: uint32, segmentId: uint32)
    requires expac < 100 && segmentId < 100
    ensures WrappingAdd(ShiftLeft(expac, 8), segmentId) == BitOr(segmentId, ShiftLeft(expac, 8))
  {
    Pow2Values();
    DivisionUnique(expac as int * 0x100, 0x100, expac as int, 0);
    OrDisjoint(segmentId as nat, expac as nat * 0x100, 8);
  }

  /** The sub-id and the category number share no bit, so `|` adds them. */
  lemma CombineIds(subId: uint32, code: uint32)
    requires subId < 0x1_0000 && code < 0x100
    ensures BitOr(subId, ShiftLeft(code, 16)) as int == code as int * 0x1_0000 + subId as int
  {
    Pow2Values();
    DivisionUnique(code as int * 0x1_0000, 0x1_0000, code as int, 0);
    OrDisjoint(subId as nat, code as nat * 0x1_0000, 16);
  }

  // ---------------------------------------------------------------------------
  // The category table
  // ---------------------------------------------------------------------------

  /** How a category fills bits 0-15 of its id. */
  datatype SubId =
    | NoSubId                          // always 0
    | BackgroundSubId                  // expansion and zone of a bg/ path
    | ExpansionSubId(firstDirLen: int) // expansion after a first directory of this length

  datatype Category = Category(token: string, code: uint32, subId: SubId)

  /** The archive's category taxonomy: the token a path starts with, the
      category number it selects and how the sub-id is formed. */
  const Categories: seq<Category> := [
    Category(COMMON, 0x00, NoSubId),
    Category(BGCOMMON, 0x01, NoSubId),
    Category(BG, 0x02, BackgroundSubId),
    Category(CUT, 0x03, ExpansionSubId(4)),
    Category(CHARA, 0x04, NoSubId),
    Category(SHADER, 0x05, NoSubId),
    Category(UI, 0x06, NoSubId),
    Category(SOUND, 0x07, NoSubId),
    Category(VFX, 0x08, NoSubId),
    Category(UI_SCRIPT, 0x09, NoSubId),
    Category(EXD, 0x0A, NoSubId),
    Category(GAME_SCRIPT, 0x0B, NoSubId),
    Category(MUSIC, 0x0C, ExpansionSubId(6)),
    Category(SQPACK_TEST, 0x12, NoSubId),
    Category(DEBUG, 0x13, NoSubId)
  ]

  /** The sub-id a path of category c carries according to the table. */
  function TableSubId(p: string, c: Category): Result<uint32>
  {
    match c.subId
    case NoSubId => Ok(0)
    case BackgroundSubId => GetBgSubCategoryId(p)
    case ExpansionSubId(n) => GetNonBgSubCategoryId(p, n)
  }

  lemma TokensAreDistinct()
    ensures forall i | 0 <= i < |Categories| :: |Categories[i].token| == 3
    ensures forall i, j | 0 <= i < j < |Categories| :: Categories[i].token != Categories[j].token
  {
  }

  /** No path starts with two different tokens, so the order in which the
      arms are tried never changes the result. */
  lemma AtMostOneCategoryMatches(p: string, i: nat, j: nat)
    requires i < |Categories| && j < |Categories|
    requires StartsWith(p, Categories[i].token) && StartsWith(p, Categories[j].token)
    ensures i == j
  {
    TokensAreDistinct();
    assert Categories[i].token == p[..3] == Categories[j].token;
  }

  /** The id of a path is the matching category's number in bits 16-23 and
      its sub-id in bits 0-15, with bits 24-31 clear; the call throws exactly
      when forming the sub-id throws. */
  lemma CategoryIdLayout(p: string, i: nat)
    requires i < |Categories| && StartsWith(p, Categories[i].token)
    ensures var r, sub := GetCategoryIdForPath(p), TableSubId(p, Categories[i]);
      && (r.Throws? <==> sub.Throws?)
      && (r.Throws? ==> r.error == sub.error)
      && (r.Ok? ==> && r.value < 0x100_0000
                    && r.value as int / 0x1_0000 == Categories[i].code as int
                    && r.value as int % 0x1_0000 == sub.value as int)
  {
    var c := Categories[i];
    var sub := TableSubId(p, c);
    CategoryIdFromTable(p, i);
    if sub.Ok? {
      assert sub.value < 0x1_0000;
      assert c.code < 0x100;
      CombineIds(sub.value, c.code);
      DivisionUnique(c.code as int * 0x1_0000 + sub.value as int, 0x1_0000, c.code as int, sub.value as int);
    }
  }

  /** Every arm forms its id the same way: the sub-id the table gives its
      category, or'ed with the category number << 16. */
  lemma CategoryIdFromTable(p: string, i: nat)
    requires i < |Categories| && StartsWith(p, Categories[i].token)
    ensures var sub := TableSubId(p, Categories[i]);
      GetCategoryIdForPath(p) ==
        if sub.Throws? then Throws(sub.error)
        else Ok(BitOr(sub.value, ShiftLeft(Categories[i].code, 16)))
  {
    assert p[..3] == Categories[i].token;
    if Categories[i].subId == NoSubId {
      PlainCategoryId(p, i);
      CombineIds(0, Categories[i].code);
    } else if i == 2 {
      assert p[2] == '/' && !StartsWith(p, COMMON) && !StartsWith(p, BGCOMMON);
    } else if i == 3 {
      assert p[0] == 'c' && p[1] == 'u';
      assert !StartsWith(p, COMMON) && !StartsWith(p, BGCOMMON) && !StartsWith(p, BG);
    } else {
      assert i == 12;
      NoEarlierToken(p, 12);
    }
  }

  /** A path that starts with the i-th token starts with none before it. */
  lemma NoEarlierToken(p: string, i: nat)
    requires i < |Categories| && StartsWith(p, Categories[i].token)
    ensures forall j | 0 <= j < i :: !StartsWith(p, Categories[j].token)
    ensures 0 < i ==> !StartsWith(p, COMMON)
    ensures 1 < i ==> !StartsWith(p, BGCOMMON)
    ensures 2 < i ==> !StartsWith(p, BG)
    ensures 3 < i ==> !StartsWith(p, CUT)
    ensures 4 < i ==> !StartsWith(p, CHARA)
    ensures 5 < i ==> !StartsWith(p, SHADER)
    ensures 6 < i ==> !StartsWith(p, UI)
    ensures 7 < i ==> !StartsWith(p, SOUND)
    ensures 8 < i ==> !StartsWith(p, VFX)
    ensures 9 < i ==> !StartsWith(p, UI_SCRIPT)
    ensures 10 < i ==> !StartsWith(p, EXD)
    ensures 11 < i ==> !StartsWith(p, GAME_SCRIPT)
    ensures 12 < i ==> !StartsWith(p, MUSIC)
    ensures 13 < i ==> !StartsWith(p, SQPACK_TEST)
  {
    forall j | 0 <= j < i
      ensures !StartsWith(p, Categories[j].token)
    {
      if StartsWith(p, Categories[j].token) {
        AtMostOneCategoryMatches(p, i, j);
      }
    }
    assert Categories[0].token == COMMON && Categories[1].token == BGCOMMON && Categories[2].token == BG;
    assert Categories[3].token == CUT && Categories[4].token == CHARA && Categories[5].token == SHADER;
    assert Categories[6].token == UI && Categories[7].token == SOUND && Categories[8].token == VFX;
    assert Categories[9].token == UI_SCRIPT && Categories[10].token == EXD && Categories[11].token == GAME_SCRIPT;
    assert Categories[12].token == MUSIC && Categories[13].token == SQPACK_TEST;
  }

  /** A category without sub-structure gives its number << 16 and never throws. */
  lemma PlainCategoryId(p: string, i: nat)
    requires i < |Categories| && StartsWith(p, Categories[i].token)
    requires Categories[i].subId == NoSubId
    ensures GetCategoryIdForPath(p) == Ok(Categories[i].code * 0x1_0000)
  {
    NoEarlierToken(p, i);
  }

  /** A path that starts with no known token gets id 0, the id of `com`
      paths: the two cannot be told apart. */
  lemma UnknownPrefixLooksCommon(p: string, rest: string)
    requires forall i | 0 <= i < |Categories| :: !StartsWith(p, Categories[i].token)
    ensures GetCategoryIdForPath(p) == Ok(0)
    ensures GetCategoryIdForPath(COMMON + rest) == Ok(0)
  {
    assert Categories[0].token == COMMON && Categories[1].token == BGCOMMON && Categories[2].token == BG;
    assert Categories[3].token == CUT && Categories[4].token == CHARA && Categories[5].token == SHADER;
    assert Categories[6].token == UI && Categories[7].token == SOUND && Categories[8].token == VFX;
    assert Categories[9].token == UI_SCRIPT && Categories[10].token == EXD && Categories[11].token == GAME_SCRIPT;
    assert Categories[12].token == MUSIC && Categories[13].token == SQPACK_TEST && Categories[14].token == DEBUG;
    assert StartsWith(COMMON + rest, COMMON);
  }

  // ---------------------------------------------------------------------------
  // Background paths
  // ---------------------------------------------------------------------------

  /** A `bg/` path whose fourth character is not `e` has no expansion
      directory and gets exactly the background number; `bg/` alone is too
      short to look at that character. */
  lemma BgWithoutExpansion(p: string)
    requires StartsWith(p, BG)
    ensures |p| == 3 ==> GetCategoryIdForPath(p) == Throws(IndexOutOfRange(3))
    ensures |p| > 3 && p[3] != 'e' ==> GetCategoryIdForPath(p) == Ok(0x02_0000)
  {
    assert p[2] == '/' && !StartsWith(p, COMMON) && !StartsWith(p, BGCOMMON);
    if |p| > 3 && p[3] != 'e' {
      CombineIds(0, 2);
    }
  }

  /** Two decimal digits, with a leading zero below 10, as zone numbers are written. */
  function TwoDigits(n: nat): (s: string)
    requires n < 100
    ensures |s| == 2 && AllDigits(s) && DecimalValue(s) == n
  {
    var s := [DigitChar(n / 10), DigitChar(n % 10)];
    assert s[..1][..0] == [];
    assert DecimalValue(s[..1]) == n / 10;
    s
  }

  /** The path of a background file of an expansion and zone:
      `bg/ex<expansion>/<zone, two digits>` followed by the rest. */
  function BgPath(expansion: nat, zone: nat, rest: string): string
    requires expansion < 100 && zone < 100
  {
    BG + "ex" + Decimal(expansion) + "/" + TwoDigits(zone) + rest
  }

  /** A background path of expansion e (one or two digits) and zone z gets
      id 0x02 << 16 | e << 8 | z, so the category, expansion and zone can be
      read back from bits 16-23, 8-15 and 0-7. */
  lemma BgPathRoundTrip(expansion: nat, zone: nat, rest: string)
    requires expansion < 100 && zone < 100
    ensures GetCategoryIdForPath(BgPath(expansion, zone, rest)).Ok?
    ensures var id := GetCategoryIdForPath(BgPath(expansion, zone, rest)).value as int;
      && id == 0x02_0000 + expansion * 0x100 + zone
      && id / 0x1_0000 == 0x02 && (id / 0x100) % 0x100 == expansion && id % 0x100 == zone
  {
    var p := BgPath(expansion, zone, rest);
    assert p[..3] == Categories[2].token;
    var sub := (expansion * 0x100 + zone) as uint32;
    BgSubIdRoundTrip(expansion, zone, rest);
    CategoryIdFromTable(p, 2);
    CombineIds(sub, 2);
    var id := 0x02_0000 + expansion * 0x100 + zone;
    DivisionUnique(id, 0x1_0000, 0x02, expansion * 0x100 + zone);
    DivisionUnique(id, 0x100, 0x200 + expansion, zone);
    DivisionUnique(0x200 + expansion, 0x100, 0x02, expansion);
  }

  lemma BgSubIdRoundTrip(expansion: nat, zone: nat, rest: string)
    requires expansion < 100 && zone < 100
    ensures GetBgSubCategoryId(BgPath(expansion, zone, rest)) == Ok((expansion * 0x100 + zone) as uint32)
  {
    var p := BgPath(expansion, zone, rest);
    var e, z := Decimal(expansion), TwoDigits(zone);
    var dir := BG + "ex" + e + "/";
    assert p == dir + z + rest;
    Pieces(dir, z, rest);
    DecimalRoundTrip(expansion);
    assert p[3] == 'e' && p[|dir| - 1] == '/';
    if expansion < 10 {
      assert |e| == 1 && p[5] == e[0] && e[..0] == [];
      BgSubIdOneDigit(p, expansion, zone);
    } else {
      assert |e| == 2 && p[5..7] == e;
      BgSubIdTwoDigits(p, expansion, zone);
    }
  }

  lemma BgSubIdOneDigit(p: string, expansion: nat, zone: nat)
    requires 9 <= |p| && p[3] == 'e' && p[6] == '/' && IsDigit(p[5]) && DigitValue(p[5]) == expansion
    requires AllDigits(p[7..9]) && DecimalValue(p[7..9]) == zone
    ensures GetBgSubCategoryId(p).Ok? && GetBgSubCategoryId(p).value as int == expansion * 0x100 + zone
  {
    BgSubIdCases(p);
  }

  lemma BgSubIdTwoDigits(p: string, expansion: nat, zone: nat)
    requires 10 <= |p| && p[3] == 'e' && p[7] == '/' && AllDigits(p[5..7]) && DecimalValue(p[5..7]) == expansion
    requires AllDigits(p[8..10]) && DecimalValue(p[8..10]) == zone
    ensures GetBgSubCategoryId(p).Ok? && GetBgSubCategoryId(p).value as int == expansion * 0x100 + zone
  {
    assert IsDigit(p[5..7][1]);
    BgSubIdCases(p);
  }

  /** The outcomes of `GetBgSubCategoryId`, by the characters at offsets 3,
      6 and 7: no expansion directory, a one-digit or a two-digit expansion
      number, and the paths it throws on. */
  lemma BgSubIdCases(p: string)
    ensures |p| <= 3 ==> GetBgSubCategoryId(p) == Throws(IndexOutOfRange(3))
    ensures 3 < |p| && p[3] != 'e' ==> GetBgSubCategoryId(p) == Ok(0)
    ensures 3 < |p| <= 6 && p[3] == 'e' ==> GetBgSubCategoryId(p) == Throws(IndexOutOfRange(6))
    // one-digit expansion: `/` at offset 6
    ensures 7 <= |p| && p[3] == 'e' && p[6] == '/' && !IsDigit(p[5]) ==>
      GetBgSubCategoryId(p) == Throws(Format(p[5..6]))
    ensures 7 <= |p| < 9 && p[3] == 'e' && p[6] == '/' && IsDigit(p[5]) ==>
      GetBgSubCategoryId(p) == Throws(ArgumentOutOfRange(7, 2))
    ensures 9 <= |p| && p[3] == 'e' && p[6] == '/' && IsDigit(p[5]) ==>
      var r, zone := GetBgSubCategoryId(p), p[7..9];
      if AllDigits(zone) then r.Ok? && r.value as int == DigitValue(p[5]) * 0x100 + DecimalValue(zone)
      else r == Throws(Format(zone))
    ensures |p| == 7 && p[3] == 'e' && p[6] != '/' ==> GetBgSubCategoryId(p) == Throws(IndexOutOfRange(7))
    // two-digit expansion: `/` at offset 7
    ensures 8 <= |p| && p[3] == 'e' && p[6] != '/' && p[7] == '/' && !AllDigits(p[5..7]) ==>
      GetBgSubCategoryId(p) == Throws(Format(p[5..7]))
    ensures 8 <= |p| < 10 && p[3] == 'e' && p[6] != '/' && p[7] == '/' && AllDigits(p[5..7]) ==>
      GetBgSubCategoryId(p) == Throws(ArgumentOutOfRange(8, 2))
    ensures 10 <= |p| && p[3] == 'e' && p[6] != '/' && p[7] == '/' && AllDigits(p[5..7]) ==>
      var r, zone := GetBgSubCategoryId(p), p[8..10];
      if AllDigits(zone) then r.Ok? && r.value as int == DecimalValue(p[5..7]) * 0x100 + DecimalValue(zone)
      else r == Throws(Format(zone))
    // neither: the zone is parsed at offset 3
    ensures 8 <= |p| && p[3] == 'e' && p[6] != '/' && p[7] != '/' ==>
      GetBgSubCategoryId(p) == Throws(Format(p[3..5]))
  {
    if |p| <= 3 || p[3] != 'e' || |p| <= 6 {
    } else if p[6] == '/' {
      var d := p[5..6];
      if IsDigit(p[5]) {
        assert AllDigits(d) && d[..0] == [];
        assert DecimalValue(d) == DigitValue(p[5]);
        ExpansionShift(d, DigitValue(p[5]) as uint32);
        if 9 <= |p| {
          BgSegmentCases(p, ShiftLeft(DigitValue(p[5]) as uint32, 8), 7);
        }
      } else {
        assert !AllDigits(d);
      }
    } else if |p| == 7 {
    } else if p[7] == '/' {
      var d := p[5..7];
      if AllDigits(d) {
        DecimalValueBound(d);
        ExpansionShift(d, DecimalValue(d) as uint32);
        if 10 <= |p| {
          BgSegmentCases(p, ShiftLeft(DecimalValue(d) as uint32, 8), 8);
        }
      }
    } else {
      assert !IsDigit(p[3..5][0]);
    }
  }

  lemma BgSegmentCases(p: string, expacId: uint32, segmentIdIndex: nat)
    requires segmentIdIndex + 2 <= |p| && expacId < 0x8000
    ensures var r, zone := BgSegmentId(p, expacId, segmentIdIndex), p[segmentIdIndex..segmentIdIndex + 2];
      if AllDigits(zone) then r.Ok? && r.value as int == expacId as int + DecimalValue(zone)
      else r == Throws(Format(zone))
  {
    var zone := p[segmentIdIndex..segmentIdIndex + 2];
    if AllDigits(zone) {
      DecimalValueBound(zone);
    }
  }

  /** A `bg/e` path whose expansion directory ends neither after one digit
      nor after two falls back to parsing the zone at offset 3, which holds
      the `e`: the call always throws. */
  lemma BgUnrecognisedExpansionThrows(p: string)
    requires StartsWith(p, BG) && 8 <= |p| && p[3] == 'e' && p[6] != '/' && p[7] != '/'
    ensures GetCategoryIdForPath(p) == Throws(Format(p[3..5]))
  {
    assert p[2] == '/' && !StartsWith(p, COMMON) && !StartsWith(p, BGCOMMON);
    BgSubIdCases(p);
  }

  // ---------------------------------------------------------------------------
  // Cutscene and music paths
  // ---------------------------------------------------------------------------

  /** Every outcome of `GetNonBgSubCategoryId(p, n)`, by the characters at
      offsets n, n + 3 and n + 4. */
  lemma NonBgSubIdCases(p: string, n: nat)
    ensures n >= |p| ==> GetNonBgSubCategoryId(p, n) == Throws(IndexOutOfRange(n))
    ensures n < |p| && p[n] != 'e' ==> GetNonBgSubCategoryId(p, n) == Ok(0)
    ensures n < |p| <= n + 3 && p[n] == 'e' ==>
      GetNonBgSubCategoryId(p, n) == Throws(IndexOutOfRange(n + 3))
    ensures n + 3 < |p| && p[n] == 'e' && p[n + 3] == '/' ==>
      GetNonBgSubCategoryId(p, n) ==
        if IsDigit(p[n + 2]) then Ok((DigitValue(p[n + 2]) * 0x100) as uint32)
        else Throws(Format(p[n + 2..n + 3]))
    ensures |p| == n + 4 && p[n] == 'e' && p[n + 3] != '/' ==>
      GetNonBgSubCategoryId(p, n) == Throws(IndexOutOfRange(n + 4))
    ensures n + 4 < |p| && p[n] == 'e' && p[n + 3] != '/' && p[n + 4] == '/' ==>
      var r, d := GetNonBgSubCategoryId(p, n), p[n + 2..n + 4];
      if AllDigits(d) then r.Ok? && r.value as int == DecimalValue(d) * 0x100
      else r == Throws(Format(d))
    ensures n + 4 < |p| && p[n] == 'e' && p[n + 3] != '/' && p[n + 4] != '/' ==>
      GetNonBgSubCategoryId(p, n) == Ok(0)
  {
    if n + 3 < |p| && p[n] == 'e' {
      if p[n + 3] == '/' {
        var d := p[n + 2..n + 3];
        if IsDigit(p[n + 2]) {
          assert AllDigits(d) && d[..0] == [];
          assert DecimalValue(d) == DigitValue(p[n + 2]);
          ExpansionShift(d, DigitValue(p[n + 2]) as uint32);
        } else {
          assert !AllDigits(d);
        }
      } else if n + 4 < |p| && p[n + 4] == '/' {
        var d := p[n + 2..n + 4];
        if AllDigits(d) {
          DecimalValueBound(d);
          assert |d| == 2 && Pow10(2) == 100;
          ExpansionShift(d, DecimalValue(d) as uint32);
        }
      }
    }
  }

  /** The path of a file of an expansion under a first directory such as
      `cut/` or `music/`: `<firstDir>ex<expansion>/` followed by the rest. */
  function ExpansionPath(firstDir: string, expansion: nat, rest: string): string
    requires expansion < 100
  {
    firstDir + "ex" + Decimal(expansion) + "/" + rest
  }

  /** The expansion number, one digit or two, comes back shifted into bits 8-15. */
  lemma ExpansionSubIdRoundTrip(firstDir: string, expansion: nat, rest: string)
    requires expansion < 100
    ensures GetNonBgSubCategoryId(ExpansionPath(firstDir, expansion, rest), |firstDir|)
            == Ok((expansion * 0x100) as uint32)
  {
    var p := ExpansionPath(firstDir, expansion, rest);
    var n := |firstDir|;
    var e := Decimal(expansion);
    assert p == firstDir + "ex" + e + ("/" + rest);
    Pieces(firstDir + "ex", e, "/" + rest);
    DecimalRoundTrip(expansion);
    assert p[n] == 'e' && p[n + 2 + |e|] == '/';
    NonBgSubIdCases(p, n);
    if expansion < 10 {
      assert |e| == 1 && e[..0] == [];
    } else {
      assert |e| == 2 && IsDigit(p[n + 3]);
    }
  }

  /** `cut/ex<e>/…` gets id 0x03 << 16 | e << 8. */
  lemma CutPathRoundTrip(expansion: nat, rest: string)
    requires expansion < 100
    ensures GetCategoryIdForPath(ExpansionPath(CUT + "/", expansion, rest))
            == Ok((0x03_0000 + expansion * 0x100) as uint32)
  {
    var p := ExpansionPath(CUT + "/", expansion, rest);
    var sub := (expansion * 0x100) as uint32;
    assert p[..3] == Categories[3].token;
    ExpansionSubIdRoundTrip(CUT + "/", expansion, rest);
    CategoryIdFromTable(p, 3);
    CombineIds(sub, 0x03);
  }

  /** `music/ex<e>/…` gets id 0x0C << 16 | e << 8. */
  lemma MusicPathRoundTrip(expansion: nat, rest: string)
    requires expansion < 100
    ensures GetCategoryIdForPath(ExpansionPath("music/", expansion, rest))
            == Ok((0x0C_0000 + expansion * 0x100) as uint32)
  {
    var p := ExpansionPath("music/", expansion, rest);
    var sub := (expansion * 0x100) as uint32;
    assert p[..3] == Categories[12].token;
    ExpansionSubIdRoundTrip("music/", expansion, rest);
    CategoryIdFromTable(p, 12);
    CombineIds(sub, 0x0C);
  }

  /** Worked example: expansion 2, zone 3. */
  lemma BgExampleOneDigit()
    ensures GetCategoryIdForPath("bg/ex2/03/bg.lgb") == Ok(0x02_0203)
  {
    assert BgPath(2, 3, "/bg.lgb") == "bg/ex2/03/bg.lgb" by {
      assert Decimal(2) == "2" && TwoDigits(3) == "03";
    }
    BgPathRoundTrip(2, 3, "/bg.lgb");
  }

  /** Worked example: expansion 12, zone 7. */
  lemma BgExampleTwoDigits()
    ensures GetCategoryIdForPath("bg/ex12/07/bg.lgb") == Ok(0x02_0C07)
  {
    assert BgPath(12, 7, "/bg.lgb") == "bg/ex12/07/bg.lgb" by {
      assert Decimal(12) == "12" && TwoDigits(7) == "07";
    }
    BgPathRoundTrip(12, 7, "/bg.lgb");
  }

  /** Worked example: a background path outside any expansion directory. */
  lemma BgExampleNoExpansion()
    ensures GetCategoryIdForPath("bg/ffxiv/sea_s1/bg.lgb") == Ok(0x02_0000)
  {
    var p := "bg/ffxiv/sea_s1/bg.lgb";
    assert p[..3] == BG && p[3] == 'f';
    BgWithoutExpansion(p);
  }

  /** Worked example: a cutscene of expansion 1. */
  lemma CutExample()
    ensures GetCategoryIdForPath("cut/ex1/cut.cutb") == Ok(0x03_0100)
  {
    assert ExpansionPath(CUT + "/", 1, "cut.cutb") == "cut/ex1/cut.cutb" by {
      assert Decimal(1) == "1";
    }
    CutPathRoundTrip(1, "cut.cutb");
  }

  /** Worked example: music of expansion 3. */
  lemma MusicExample()
    ensures GetCategoryIdForPath("music/ex3/bgm.scd") == Ok(0x0C_0300)
  {
    assert ExpansionPath("music/", 3, "bgm.scd") == "music/ex3/bgm.scd" by {
      assert Decimal(3) == "3";
    }
    MusicPathRoundTrip(3, "bgm.scd");
  }

  /** Worked examples: categories without a sub-id. */
  lemma PlainCategoryExamples()
    ensures GetCategoryIdForPath("chara/c0101.mdl") == Ok(0x04_0000)
    ensures GetCategoryIdForPath("common/font.tex") == Ok(0)
  {
    PlainCategoryId("chara/c0101.mdl", 4);
    PlainCategoryId("common/font.tex", 0);
  }

  /** Worked example: an unknown prefix. */
  lemma UnknownPrefixExample()
    ensures GetCategoryIdForPath("zzz/a.tex") == Ok(0)
  {
    var p := "zzz/a.tex";
    forall i | 0 <= i < |Categories|
      ensures !StartsWith(p, Categories[i].token)
    {
      assert Categories[i].token[0] != 'z';
    }
    UnknownPrefixLooksCommon(p, "");
  }

  /** Where the middle piece of a concatenation sits. */
  lemma Pieces(a: string, b: string, c: string)
    ensures (a + b + c)[|a|..|a| + |b|] == b
    ensures forall i | 0 <= i < |b| :: (a + b + c)[|a| + i] == b[i]
  {
  }
}
