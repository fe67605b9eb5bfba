/** The mushaf-order surah table's page counts and the memorised-page count of
    a student who memorises from an-Nas backwards to a given surah and ayah. */
module QuranData {
  import opened Common
  import opened Mushaf

  const TotalQuranPages: int := 604

  /** The page count of surah `id` in the mushaf-order table, or 0 outside 1..114. */
  function TotalPages(id: int): (n: nat)
    ensures n > 0 <==> IsSurahId(id)
  {
    if id < 1 then 0
    else if id <= 10 then TotalPagesFrom1(id)
    else if id <= 20 then TotalPagesFrom11(id)
    else if id <= 30 then TotalPagesFrom21(id)
    else if id <= 40 then TotalPagesFrom31(id)
    else if id <= 50 then TotalPagesFrom41(id)
    else if id <= 60 then TotalPagesFrom51(id)
    else if id <= 70 then TotalPagesFrom61(id)
    else if id <= 80 then TotalPagesFrom71(id)
    else if id <= 90 then TotalPagesFrom81(id)
    else if id <= 100 then TotalPagesFrom91(id)
    else if id <= 110 then TotalPagesFrom101(id)
    else if id <= 114 then TotalPagesFrom111(id)
    else 0
  }

  function TotalPagesFrom1(id: int): nat {
    match id
    case 1 => 1
    case 2 => 48
    case 3 => 27
    case 4 => 30
    case 5 => 22
    case 6 => 23
    case 7 => 26
    case 8 => 10
    case 9 => 20
    case 10 => 13
    case _ => 0
  }

  function TotalPagesFrom11(id: int): nat {
    match id
    case 11 => 14
    case 12 => 14
    case 13 => 6
    case 14 => 6
    case 15 => 5
    case 16 => 14
    case 17 => 11
    case 18 => 11
    case 19 => 7
    case 20 => 10
    case _ => 0
  }

  function TotalPagesFrom21(id: int): nat {
    match id
    case 21 => 10
    case 22 => 9
    case 23 => 8
    case 24 => 9
    case 25 => 8
    case 26 => 10
    case 27 => 8
    case 28 => 11
    case 29 => 8
    case 30 => 7
    case _ => 0
  }

  function TotalPagesFrom31(id: int): nat {
    match id
    case 31 => 3
    case 32 => 3
    case 33 => 9
    case 34 => 6
    case 35 => 6
    case 36 => 6
    case 37 => 7
    case 38 => 5
    case 39 => 9
    case 40 => 10
    case _ => 0
  }

  function TotalPagesFrom41(id: int): nat {
    match id
    case 41 => 5
    case 42 => 6
    case 43 => 7
    case 44 => 3
    case 45 => 3
    case 46 => 5
    case 47 => 4
    case 48 => 4
    case 49 => 3
    case 50 => 5
    case _ => 0
  }

  function TotalPagesFrom51(id: int): nat {
    match id
    case 51 => 5
    case 52 => 5
    case 53 => 3
    case 54 => 5
    case 55 => 3
    case 56 => 3
    case 57 => 5
    case 58 => 3
    case 59 => 4
    case 60 => 2
    case _ => 0
  }

  function TotalPagesFrom61(id: int): nat {
    match id
    case 61 => 2
    case 62 => 1
    case 63 => 2
    case 64 => 2
    case 65 => 2
    case 66 => 2
    case 67 => 2
    case 68 => 2
    case 69 => 2
    case 70 => 2
    case _ => 0
  }

  function TotalPagesFrom71(id: int): nat {
    match id
    case 71 => 3
    case 72 => 2
    case 73 => 1
    case 74 => 2
    case 75 => 1
    case 76 => 2
    case 77 => 2
    case 78 => 1
    case 79 => 2
    case 80 => 1
    case _ => 0
  }

  function TotalPagesFrom81(id: int): nat {
    match id
    case 81 => 1
    case 82 => 1
    case 83 => 2
    case 84 => 1
    case 85 => 1
    case 86 => 1
    case 87 => 1
    case 88 => 1
    case 89 => 2
    case 90 => 1
    case _ => 0
  }

  function TotalPagesFrom91(id: int): nat {
    match id
    case 91 => 1
    case 92 => 1
    case 93 => 1
    case 94 => 1
    case 95 => 1
    case 96 => 1
    case 97 => 1
    case 98 => 1
    case 99 => 1
    case 100 => 1
    case _ => 0
  }

  function TotalPagesFrom101(id: int): nat {
    match id
    case 101 => 1
    case 102 => 1
    case 103 => 1
    case 104 => 1
    case 105 => 1
    case 106 => 1
    case 107 => 1
    case 108 => 1
    case 109 => 1
    case 110 => 1
    case _ => 0
  }

  function TotalPagesFrom111(id: int): nat {
    match id
    case 111 => 1
    case 112 => 1
    case 113 => 1
    case 114 => 1
    case _ => 0
  }

  /** `Math.ceil(ayah / count * pages)` for a surah of `count` ayahs spread over
      `pages` pages, or all of `pages` once `ayah` reaches `count`. */
  function PagesWithin(ayah: int, count: int, pages: int): (r: int)
    requires count > 0 && pages >= 0
    ensures r <= pages
    ensures ayah >= count ==> r == pages
    ensures 0 <= ayah ==> 0 <= r
    ensures 0 < ayah && 0 < pages ==> 0 < r
  {
    if ayah >= count then pages
    else
      var q := CeilDiv(ayah * pages, count);
      MulMonotone(ayah, count, pages);
      assert count * pages == pages * count;
      MulCancelLt(q - 1, pages, count);
      assert q * count >= 0 ==> q >= 0;
      q
  }

  /** More ayahs never cover fewer pages. */
  lemma PagesWithinMonotone(a: int, b: int, count: int, pages: int)
    requires count > 0 && pages >= 0 && a <= b
    ensures PagesWithin(a, count, pages) <= PagesWithin(b, count, pages)
  {
    if b < count {
      var qa, qb := CeilDiv(a * pages, count), CeilDiv(b * pages, count);
      MulMonotone(a, b, pages);
      MulCancelLt(qa - 1, qb, count);
    }
  }

  /** `calculatePagesForAyah`: 0 for an unknown surah. */
  function PagesForAyah(surahId: int, ayah: int): (r: int)
    ensures !IsSurahId(surahId) ==> r == 0
    ensures IsSurahId(surahId) && ayah >= AyahCount(surahId) ==> r == TotalPages(surahId)
    ensures r <= TotalPages(surahId)
    ensures 0 <= ayah ==> 0 <= r
  {
    if !IsSurahId(surahId) then 0
    else PagesWithin(ayah, AyahCount(surahId), TotalPages(surahId))
  }

  lemma PagesForAyahMonotone(surahId: int, a: int, b: int)
    requires a <= b
    ensures PagesForAyah(surahId, a) <= PagesForAyah(surahId, b)
  {
    if IsSurahId(surahId) {
      PagesWithinMonotone(a, b, AyahCount(surahId), TotalPages(surahId));
    }
  }

  /** The pages of the surahs after `surahId` in mushaf order, through 114. */
  function PagesAfter(surahId: int): (n: nat)
    decreases SurahCount - surahId
  {
    if surahId >= SurahCount then 0 else TotalPages(surahId + 1) + PagesAfter(surahId + 1)
  }

  lemma PagesAfterStep(id: int)
    requires id <= SurahCount
    ensures PagesAfter(id - 1) == TotalPages(id) + PagesAfter(id)
  {
  }

  /** What `calculateMemorizedPages` returns: 0 when either input is falsy,
      otherwise every surah after the current one plus the current surah's share. */
  function MemorizedPagesOf(surahId: int, ayah: int): int {
    if surahId == 0 || ayah == 0 then 0 else PagesAfter(surahId) + PagesForAyah(surahId, ayah)
  }

  /** `calculateMemorizedPages`: the descending loop over surah ids 114 down to
      the one after `surahId`. */
  method MemorizedPages(surahId: int, ayah: int) returns (pages: int)
    ensures pages == MemorizedPagesOf(surahId, ayah)
  {
    if surahId == 0 || ayah == 0 {
      return 0;
    }
    pages := 0;
    var id := SurahCount;
    while id > surahId
      invariant id <= SurahCount && (surahId <= id || id == SurahCount)
      invariant pages == PagesAfter(id)
      decreases id - surahId
    {
      PagesAfterStep(id);
      if IsSurahId(id) {
        pages := pages + TotalPages(id);
      }
      id := id - 1;
    }
    assert pages == PagesAfter(surahId);
    var current := PagesForAyah(surahId, ayah);
    pages := pages + current;
  }

  /** Stepping back one surah with at least one ayah memorised never gives
      fewer pages, whatever the ayah in the later surah. */
  lemma MemorizedPagesBackwards(s: int, a: int, b: int)
    requires s != 1 && a >= 1
    ensures MemorizedPagesOf(s - 1, a) >= MemorizedPagesOf(s, b)
  {
    if s <= SurahCount {
      PagesAfterStep(s);
    }
  }
}
