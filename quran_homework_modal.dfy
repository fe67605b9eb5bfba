/** The new-recitation homework modal: the page count of the loaded passage
    and the range it saves. */
module QuranHomeworkModal {
  import opened Common
  import opened QuranReader

  /** The distinct non-zero page numbers among the first `n` ayahs. */
  ghost function PagesSeen(pages: seq<int>, n: nat): set<int>
    requires n <= |pages|
  {
    set i | 0 <= i < n && pages[i] != 0 :: pages[i]
  }

  /** The page count shown after loading: the size of the set of the ayahs'
      pages (a page of 0 counts as missing), or None when nothing was loaded. */
  method PageCount(pages: seq<int>) returns (count: Option<nat>)
    ensures |pages| == 0 ==> count.None?
    ensures |pages| > 0 ==> count == Some(|PagesSeen(pages, |pages|)|)
    ensures count.Some? ==> count.value <= |pages|
  {
    if |pages| == 0 {
      return None;
    }
    var seen: set<int> := {};
    var i := 0;
    while i < |pages|
      invariant 0 <= i <= |pages|
      invariant seen == PagesSeen(pages, i)
      invariant |seen| <= i
    {
      if pages[i] != 0 {
        assert PagesSeen(pages, i + 1) == seen + {pages[i]};
        seen := seen + {pages[i]};
      } else {
        assert PagesSeen(pages, i + 1) == seen;
      }
      i := i + 1;
    }
    return Some(|seen|);
  }

  datatype HomeworkRange = HomeworkRange(startSurah: string, startAyah: string, endSurah: string, endAyah: string)

  /** `handleSave`: both surahs are required; the start ayah defaults to "1"
      and the end ayah to the last option of the end surah, then "1". */
  function SaveRange(surahs: seq<SurahInfo>, fromSurah: string, toSurah: string,
                     fromAyah: string, toAyah: string): (r: Option<HomeworkRange>)
    ensures r.None? <==> fromSurah == "" || toSurah == ""
    ensures r.Some? ==> r.value.startSurah == fromSurah && r.value.endSurah == toSurah
    ensures r.Some? ==> r.value.startAyah == (if fromAyah != "" then fromAyah else "1")
    ensures r.Some? && toAyah != "" ==> r.value.endAyah == toAyah
    ensures r.Some? && toAyah == "" ==>
      r.value.endAyah == NatToString(Max(1, |AyahOptions(surahs, ParseInt(toSurah).GetOr(-1))|))
  {
    if fromSurah == "" || toSurah == "" then None
    else
      var options := AyahOptions(surahs, ParseInt(toSurah).GetOr(-1));
      var endAyah := if toAyah != "" then toAyah else if options != [] then options[|options| - 1] else "1";
      LastOptionIsCount(options);
      Some(HomeworkRange(fromSurah, if fromAyah != "" then fromAyah else "1", toSurah, endAyah))
  }

  /** The last of the options "1".."n", or "1" when there are none, is the
      larger of 1 and n written out. */
  lemma LastOptionIsCount(options: seq<string>)
    requires forall i :: 0 <= i < |options| ==> options[i] == NatToString(i + 1)
    ensures (if options != [] then options[|options| - 1] else "1") == NatToString(Max(1, |options|))
  {
    if options == [] {
      assert NatToString(1) == [DigitChar(1)];
    }
  }

  /** With no end ayah chosen, a known surah's homework ends at its last ayah. */
  lemma SaveRangeEndsAtLastAyah(surahs: seq<SurahInfo>, fromSurah: string, n: nat)
    requires fromSurah != "" && FindSurah(surahs, n).Some? && FindSurah(surahs, n).value.ayahCount > 0
    ensures SaveRange(surahs, fromSurah, NatToString(n), "", "").value.endAyah == NatToString(FindSurah(surahs, n).value.ayahCount)
  {
    ParseIntOfNatToString(n);
  }
}
