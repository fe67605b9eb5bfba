/** The surah table in memorisation order (al-Fatiha first, then an-Nas, al-Falaq
    and so on back to al-Baqara), the conversions between a surah id and its
    position, and a student's Quran progress counted in that order. The rows of
    this table carry the ids 1..114 in order, so a surah's id in this table is
    its memorisation position. */
module QuranUtils {
  import opened Common
  import opened Mushaf
  import QuranData

  /** The mushaf id of the surah at memorisation position `p`: al-Fatiha stays
      first and the rest of the mushaf follows in reverse. */
  function MushafIdAt(p: int): (m: int)
    requires IsSurahId(p)
    ensures IsSurahId(m)
  {
    if p == 1 then 1 else 116 - p
  }

  /** The conversion is its own inverse, so it pairs the positions with the mushaf ids one to one. */
  lemma MushafIdAtInverse(p: int)
    requires IsSurahId(p)
    ensures MushafIdAt(MushafIdAt(p)) == p
  {
  }

  /** The `name` column: the surah at position `id`, or "" for an id not in the table. */
  function MemoName(id: int): string {
    if IsSurahId(id) then Name(MushafIdAt(id)) else ""
  }

  /** The `ayahCount` column. */
  function MemoAyahCount(id: int): (n: nat)
    ensures n > 0 <==> IsSurahId(id)
  {
    if IsSurahId(id) then AyahCount(MushafIdAt(id)) else 0
  }

  /** The page count the memorisation-order table gives the surah at position `id`, or 0 outside 1..114. */
  function MemoPages(id: int): (n: nat)
    ensures n > 0 <==> IsSurahId(id)
  {
    if id < 1 then 0
    else if id <= 10 then MemoPagesFrom1(id)
    else if id <= 20 then MemoPagesFrom11(id)
    else if id <= 30 then MemoPagesFrom21(id)
    else if id <= 40 then MemoPagesFrom31(id)
    else if id <= 50 then MemoPagesFrom41(id)
    else if id <= 60 then MemoPagesFrom51(id)
    else if id <= 70 then MemoPagesFrom61(id)
    else if id <= 80 then MemoPagesFrom71(id)
    else if id <= 90 then MemoPagesFrom81(id)
    else if id <= 100 then MemoPagesFrom91(id)
    else if id <= 110 then MemoPagesFrom101(id)
    else if id <= 114 then MemoPagesFrom111(id)
    else 0
  }

  function MemoPagesFrom1(id: int): nat {
    match id
    case 1 => 1
    case 2 => 1
    case 3 => 1
    case 4 => 1
    case 5 => 1
    case 6 => 1
    case 7 => 1
    case 8 => 1
    case 9 => 1
    case 10 => 1
    case _ => 0
  }

  function MemoPagesFrom11(id: int): nat {
    match id
    case 11 => 1
    case 12 => 1
    case 13 => 1
    case 14 => 1
    case 15 => 1
    case 16 => 1
    case 17 => 1
    case 18 => 1
    case 19 => 1
    case 20 => 1
    case _ => 0
  }

  function MemoPagesFrom21(id: int): nat {
    match id
    case 21 => 1
    case 22 => 1
    case 23 => 1
    case 24 => 1
    case 25 => 1
    case 26 => 1
    case 27 => 2
    case 28 => 1
    case 29 => 1
    case 30 => 1
    case _ => 0
  }

  function MemoPagesFrom31(id: int): nat {
    match id
    case 31 => 1
    case 32 => 1
    case 33 => 2
    case 34 => 1
    case 35 => 1
    case 36 => 1
    case 37 => 2
    case 38 => 1
    case 39 => 2
    case 40 => 2
    case _ => 0
  }

  function MemoPagesFrom41(id: int): nat {
    match id
    case 41 => 1
    case 42 => 2
    case 43 => 1
    case 44 => 2
    case 45 => 3
    case 46 => 2
    case 47 => 2
    case 48 => 2
    case 49 => 2
    case 50 => 2
    case _ => 0
  }

  function MemoPagesFrom51(id: int): nat {
    match id
    case 51 => 2
    case 52 => 2
    case 53 => 2
    case 54 => 1
    case 55 => 2
    case 56 => 2
    case 57 => 4
    case 58 => 3
    case 59 => 5
    case 60 => 3
    case _ => 0
  }

  function MemoPagesFrom61(id: int): nat {
    match id
    case 61 => 3
    case 62 => 3
    case 63 => 2
    case 64 => 3
    case 65 => 3
    case 66 => 2
    case 67 => 3
    case 68 => 4
    case 69 => 4
    case 70 => 5
    case _ => 0
  }

  function MemoPagesFrom71(id: int): nat {
    match id
    case 71 => 3
    case 72 => 3
    case 73 => 7
    case 74 => 6
    case 75 => 6
    case 76 => 10
    case 77 => 9
    case 78 => 5
    case 79 => 7
    case 80 => 6
    case _ => 0
  }

  function MemoPagesFrom81(id: int): nat {
    match id
    case 81 => 6
    case 82 => 6
    case 83 => 10
    case 84 => 3
    case 85 => 4
    case 86 => 7
    case 87 => 8
    case 88 => 11
    case 89 => 8
    case 90 => 10
    case _ => 0
  }

  function MemoPagesFrom91(id: int): nat {
    match id
    case 91 => 8
    case 92 => 9
    case 93 => 8
    case 94 => 10
    case 95 => 10
    case 96 => 10
    case 97 => 7
    case 98 => 12
    case 99 => 11
    case 100 => 15
    case _ => 0
  }

  function MemoPagesFrom101(id: int): nat {
    match id
    case 101 => 5
    case 102 => 7
    case 103 => 6
    case 104 => 14
    case 105 => 14
    case 106 => 13
    case 107 => 21
    case 108 => 11
    case 109 => 25
    case 110 => 23
    case _ => 0
  }

  function MemoPagesFrom111(id: int): nat {
    match id
    case 111 => 22
    case 112 => 29
    case 113 => 27
    case 114 => 48
    case _ => 0
  }

  /** `getMemorizationPosition`: one past the index of the row with this id, or 0. */
  function Position(surahId: int): (p: int)
    ensures p == 0 <==> !IsSurahId(surahId)
  {
    if IsSurahId(surahId) then surahId else 0
  }

  /** `getSurahIdFromPosition`: the id of the row at `position`, or 0 outside 1..114. */
  function SurahIdAt(position: int): (id: int)
    ensures id == 0 <==> !IsSurahId(position)
  {
    if position < 1 || position > SurahCount then 0 else position
  }

  /** Position and SurahIdAt are inverse on the table's ids and positions. */
  lemma PositionRoundTrip(surahId: int, position: int)
    ensures IsSurahId(surahId) ==> SurahIdAt(Position(surahId)) == surahId
    ensures IsSurahId(position) ==> Position(SurahIdAt(position)) == position
  {
  }

  /** `calculatePagesForAyah` over this table's page counts. */
  function MemoPagesForAyah(surahId: int, ayah: int): (r: int)
    ensures !IsSurahId(surahId) ==> r == 0
    ensures IsSurahId(surahId) && ayah >= MemoAyahCount(surahId) ==> r == MemoPages(surahId)
    ensures r <= MemoPages(surahId)
    ensures 0 <= ayah ==> 0 <= r
  {
    if !IsSurahId(surahId) then 0
    else QuranData.PagesWithin(ayah, MemoAyahCount(surahId), MemoPages(surahId))
  }

  /** The ayahs of the surahs at positions 1 through `p`. */
  function MemoAyahsThrough(p: int): nat
    decreases p
  {
    if p < 1 then 0 else MemoAyahsThrough(p - 1) + MemoAyahCount(p)
  }

  /** The pages of the surahs at positions 1 through `p`, as this table counts them. */
  function MemoPagesThrough(p: int): nat
    decreases p
  {
    if p < 1 then 0 else MemoPagesThrough(p - 1) + MemoPages(p)
  }

  lemma {:induction false} MemoAyahsThroughMonotone(p: int, q: int)
    requires p <= q
    ensures MemoAyahsThrough(p) <= MemoAyahsThrough(q)
    decreases q - p
  {
    if p < q {
      MemoAyahsThroughMonotone(p, q - 1);
    }
  }

  lemma MemoPagesUpTo20()
    ensures MemoPagesThrough(20) == 20
  {
    assert MemoPagesThrough(1) == 1;
    assert MemoPagesThrough(2) == 2;
    assert MemoPagesThrough(3) == 3;
    assert MemoPagesThrough(4) == 4;
    assert MemoPagesThrough(5) == 5;
    assert MemoPagesThrough(6) == 6;
    assert MemoPagesThrough(7) == 7;
    assert MemoPagesThrough(8) == 8;
    assert MemoPagesThrough(9) == 9;
    assert MemoPagesThrough(10) == 10;
    assert MemoPagesThrough(11) == 11;
    assert MemoPagesThrough(12) == 12;
    assert MemoPagesThrough(13) == 13;
    assert MemoPagesThrough(14) == 14;
    assert MemoPagesThrough(15) == 15;
    assert MemoPagesThrough(16) == 16;
    assert MemoPagesThrough(17) == 17;
    assert MemoPagesThrough(18) == 18;
    assert MemoPagesThrough(19) == 19;
  }

  lemma MemoPagesUpTo40()
    ensures MemoPagesThrough(40) == 45
  {
    MemoPagesUpTo20();
    assert MemoPagesThrough(21) == 21;
    assert MemoPagesThrough(22) == 22;
    assert MemoPagesThrough(23) == 23;
    assert MemoPagesThrough(24) == 24;
    assert MemoPagesThrough(25) == 25;
    assert MemoPagesThrough(26) == 26;
    assert MemoPagesThrough(27) == 28;
    assert MemoPagesThrough(28) == 29;
    assert MemoPagesThrough(29) == 30;
    assert MemoPagesThrough(30) == 31;
    assert MemoPagesThrough(31) == 32;
    assert MemoPagesThrough(32) == 33;
    assert MemoPagesThrough(33) == 35;
    assert MemoPagesThrough(34) == 36;
    assert MemoPagesThrough(35) == 37;
    assert MemoPagesThrough(36) == 38;
    assert MemoPagesThrough(37) == 40;
    assert MemoPagesThrough(38) == 41;
    assert MemoPagesThrough(39) == 43;
  }

  lemma MemoPagesUpTo60()
    ensures MemoPagesThrough(60) == 90
  {
    MemoPagesUpTo40();
    assert MemoPagesThrough(41) == 46;
    assert MemoPagesThrough(42) == 48;
    assert MemoPagesThrough(43) == 49;
    assert MemoPagesThrough(44) == 51;
    assert MemoPagesThrough(45) == 54;
    assert MemoPagesThrough(46) == 56;
    assert MemoPagesThrough(47) == 58;
    assert MemoPagesThrough(48) == 60;
    assert MemoPagesThrough(49) == 62;
    assert MemoPagesThrough(50) == 64;
    assert MemoPagesThrough(51) == 66;
    assert MemoPagesThrough(52) == 68;
    assert MemoPagesThrough(53) == 70;
    assert MemoPagesThrough(54) == 71;
    assert MemoPagesThrough(55) == 73;
    assert MemoPagesThrough(56) == 75;
    assert MemoPagesThrough(57) == 79;
    assert MemoPagesThrough(58) == 82;
    assert MemoPagesThrough(59) == 87;
  }

  lemma MemoPagesUpTo80()
    ensures MemoPagesThrough(80) == 184
  {
    MemoPagesUpTo60();
    assert MemoPagesThrough(61) == 93;
    assert MemoPagesThrough(62) == 96;
    assert MemoPagesThrough(63) == 98;
    assert MemoPagesThrough(64) == 101;
    assert MemoPagesThrough(65) == 104;
    assert MemoPagesThrough(66) == 106;
    assert MemoPagesThrough(67) == 109;
    assert MemoPagesThrough(68) == 113;
    assert MemoPagesThrough(69) == 117;
    assert MemoPagesThrough(70) == 122;
    assert MemoPagesThrough(71) == 125;
    assert MemoPagesThrough(72) == 128;
    assert MemoPagesThrough(73) == 135;
    assert MemoPagesThrough(74) == 141;
    assert MemoPagesThrough(75) == 147;
    assert MemoPagesThrough(76) == 157;
    assert MemoPagesThrough(77) == 166;
    assert MemoPagesThrough(78) == 171;
    assert MemoPagesThrough(79) == 178;
  }

  lemma MemoPagesUpTo100()
    ensures MemoPagesThrough(100) == 357
  {
    MemoPagesUpTo80();
    assert MemoPagesThrough(81) == 190;
    assert MemoPagesThrough(82) == 196;
    assert MemoPagesThrough(83) == 206;
    assert MemoPagesThrough(84) == 209;
    assert MemoPagesThrough(85) == 213;
    assert MemoPagesThrough(86) == 220;
    assert MemoPagesThrough(87) == 228;
    assert MemoPagesThrough(88) == 239;
    assert MemoPagesThrough(89) == 247;
    assert MemoPagesThrough(90) == 257;
    assert MemoPagesThrough(91) == 265;
    assert MemoPagesThrough(92) == 274;
    assert MemoPagesThrough(93) == 282;
    assert MemoPagesThrough(94) == 292;
    assert MemoPagesThrough(95) == 302;
    assert MemoPagesThrough(96) == 312;
    assert MemoPagesThrough(97) == 319;
    assert MemoPagesThrough(98) == 331;
    assert MemoPagesThrough(99) == 342;
  }

  lemma MemoPagesUpTo114()
    ensures MemoPagesThrough(114) == 622
  {
    MemoPagesUpTo100();
    assert MemoPagesThrough(101) == 362;
    assert MemoPagesThrough(102) == 369;
    assert MemoPagesThrough(103) == 375;
    assert MemoPagesThrough(104) == 389;
    assert MemoPagesThrough(105) == 403;
    assert MemoPagesThrough(106) == 416;
    assert MemoPagesThrough(107) == 437;
    assert MemoPagesThrough(108) == 448;
    assert MemoPagesThrough(109) == 473;
    assert MemoPagesThrough(110) == 496;
    assert MemoPagesThrough(111) == 518;
    assert MemoPagesThrough(112) == 547;
    assert MemoPagesThrough(113) == 574;
  }

  /** The result of `calculateQuranProgress`; `NoProgress` is the all-zero
      record returned for a missing or unknown surah. */
  datatype Progress =
    | NoProgress
    | Progress(totalAyahs: int, memorizedAyahs: int, completedSurahs: int, currentSurah: int,
               remainingAyahs: int, totalPages: int, memorizedPages: int, remainingPages: int)

  /** `calculateQuranProgress` for a numeric ayah: the loop over the positions
      before the current surah adds up their ayahs and pages. */
  method QuranProgress(surahId: int, ayah: int) returns (r: Progress)
    ensures surahId == 0 || ayah == 0 || !IsSurahId(surahId) ==> r == NoProgress
    ensures surahId != 0 && ayah != 0 && IsSurahId(surahId) ==>
      && r.Progress?
      && r.totalAyahs == MemoAyahsThrough(SurahCount)
      && r.memorizedAyahs == MemoAyahsThrough(Position(surahId) - 1) + ayah
      && r.completedSurahs == Position(surahId) - 1 + (if ayah == MemoAyahCount(surahId) then 1 else 0)
      && r.currentSurah == surahId
      && r.remainingAyahs == r.totalAyahs - r.memorizedAyahs
      && r.totalPages == QuranData.TotalQuranPages
      && r.memorizedPages == MemoPagesThrough(Position(surahId) - 1) + MemoPagesForAyah(surahId, ayah)
      && r.remainingPages == r.totalPages - r.memorizedPages
  {
    if surahId == 0 || ayah == 0 || !IsSurahId(surahId) {
      return NoProgress;
    }
    var totalAyahs := MemoAyahsThrough(SurahCount);
    var currentPosition := Position(surahId);
    var memorizedAyahs, memorizedPages := 0, 0;
    var pos := 1;
    while pos < currentPosition
      invariant 1 <= pos <= currentPosition
      invariant memorizedAyahs == MemoAyahsThrough(pos - 1)
      invariant memorizedPages == MemoPagesThrough(pos - 1)
    {
      var id := SurahIdAt(pos);
      if IsSurahId(id) {
        memorizedAyahs := memorizedAyahs + MemoAyahCount(id);
        memorizedPages := memorizedPages + MemoPages(id);
      }
      pos := pos + 1;
    }
    memorizedAyahs := memorizedAyahs + ayah;
    var current := MemoPagesForAyah(surahId, ayah);
    memorizedPages := memorizedPages + current;
    var completedSurahs := currentPosition - 1;
    if ayah == MemoAyahCount(surahId) {
      completedSurahs := completedSurahs + 1;
    }
    r := Progress(totalAyahs, memorizedAyahs, completedSurahs, surahId,
                  totalAyahs - memorizedAyahs, QuranData.TotalQuranPages, memorizedPages,
                  QuranData.TotalQuranPages - memorizedPages);
  }

  /** Within the current surah the memorised ayahs never exceed the total, so
      `remainingAyahs` is never negative, and at the last ayah of the last
      position it is 0 with every surah completed. */
  lemma ProgressAyahBounds(surahId: int, ayah: int)
    requires IsSurahId(surahId) && 1 <= ayah <= MemoAyahCount(surahId)
    ensures 0 < MemoAyahsThrough(Position(surahId) - 1) + ayah <= MemoAyahsThrough(SurahCount)
    ensures surahId == SurahCount && ayah == MemoAyahCount(surahId) ==>
      MemoAyahsThrough(Position(surahId) - 1) + ayah == MemoAyahsThrough(SurahCount)
  {
    MemoAyahsThroughMonotone(surahId, SurahCount);
  }

  /** The table's page counts add up to 622, more than the 604 pages of the
      mushaf: a student who completes the last position is told they have
      -18 pages left. */
  lemma CompleteQuranLeavesNegativePages()
    ensures MemoAyahCount(SurahCount) == 286
    ensures QuranData.TotalQuranPages - (MemoPagesThrough(SurahCount - 1) + MemoPagesForAyah(SurahCount, 286)) == -18
  {
    MemoPagesUpTo114();
  }

  /** Remaining pages clamped at 0, which is what the progress screen needs:
      never negative, never more than the mushaf, 0 once the whole table is covered. */
  function CorrectedRemainingPages(memorizedPages: int): (r: int)
    ensures 0 <= r <= QuranData.TotalQuranPages
    ensures memorizedPages >= 0 ==> r <= QuranData.TotalQuranPages - memorizedPages || r == 0
    ensures memorizedPages >= QuranData.TotalQuranPages ==> r == 0
    ensures 0 <= memorizedPages <= QuranData.TotalQuranPages ==> r + memorizedPages == QuranData.TotalQuranPages
  {
    if memorizedPages >= QuranData.TotalQuranPages then 0
    else if memorizedPages < 0 then QuranData.TotalQuranPages
    else QuranData.TotalQuranPages - memorizedPages
  }

  lemma CorrectedRemainingPagesAtEnd()
    ensures CorrectedRemainingPages(MemoPagesThrough(SurahCount - 1) + MemoPagesForAyah(SurahCount, MemoAyahCount(SurahCount))) == 0
  {
    CompleteQuranLeavesNegativePages();
  }

  /** `getSurahNameFromId`. */
  function NameOfId(surahId: int): (s: string)
    ensures s == "" <==> !IsSurahId(surahId)
  {
    if IsSurahId(surahId) then
      NameNonEmpty(MushafIdAt(surahId));
      MemoName(surahId)
    else ""
  }

  /** `getSurahIdFromName`: the id of the row with this name, or 0. */
  function IdOfMemoName(s: string): (id: int)
    ensures id == 0 || (IsSurahId(id) && MemoName(id) == s)
  {
    var m := IdOfName(s);
    if m == 0 then 0 else MushafIdAt(m)
  }

  /** Looking a surah's name up again gives back its id, and a name no row
      carries gives 0. */
  lemma IdOfMemoNameRoundTrip(id: int, s: string)
    ensures IsSurahId(id) ==> IdOfMemoName(NameOfId(id)) == id
    ensures IdOfMemoName(s) == 0 <==> forall p :: IsSurahId(p) ==> MemoName(p) != s
  {
    if IsSurahId(id) {
      IdOfNameOfName(MushafIdAt(id));
      MushafIdAtInverse(id);
    }
    IdOfNameUnknown(s);
    if IdOfMemoName(s) == 0 {
      forall p | IsSurahId(p)
        ensures MemoName(p) != s
      {
        MushafIdAtInverse(p);
        assert Name(MushafIdAt(p)) == MemoName(p);
      }
    }
  }
}
