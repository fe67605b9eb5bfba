/** The Quran reader page: the ayah drop-down and a session of marked words
    that starts over whenever another passage is loaded. */
module QuranReader {
  import opened Common
  import opened QuranTestingModal

  /** A surah as the Quran endpoints list it. */
  datatype SurahInfo = SurahInfo(number: int, ayahCount: int)

  /** `surahs.find(item => item.number === n)`. */
  function FindSurah(surahs: seq<SurahInfo>, n: int): (r: Option<SurahInfo>)
    ensures r.Some? ==> r.value in surahs && r.value.number == n
    ensures r.None? <==> forall i :: 0 <= i < |surahs| ==> surahs[i].number != n
  {
    if surahs == [] then None
    else if surahs[0].number == n then Some(surahs[0])
    else
      var r := FindSurah(surahs[1..], n);
      assert forall i :: 1 <= i < |surahs| ==> surahs[i] == surahs[1..][i - 1];
      r
  }

  /** `buildAyahOptions`: "1" through the ayah count, or none for an unknown surah. */
  function AyahOptions(surahs: seq<SurahInfo>, n: int): (r: seq<string>)
    ensures FindSurah(surahs, n).None? ==> r == []
    ensures FindSurah(surahs, n).Some? ==> |r| == Max(0, FindSurah(surahs, n).value.ayahCount)
    ensures forall i :: 0 <= i < |r| ==> r[i] == NatToString(i + 1)
  {
    match FindSurah(surahs, n)
    case None => []
    case Some(s) => seq(Max(0, s.ayahCount), i requires 0 <= i => NatToString(i + 1))
  }

  /** Every option reads back as its ayah number, so option i selects ayah i + 1. */
  lemma AyahOptionsReadBack(surahs: seq<SurahInfo>, n: int, i: int)
    requires 0 <= i < |AyahOptions(surahs, n)|
    ensures ParseInt(AyahOptions(surahs, n)[i]) == Some(i + 1)
  {
    ParseIntOfNatToString(i + 1);
  }

  /** A loaded passage (its ayahs' keys) and the words marked in it. */
  class Reader {
    var ayahKeys: seq<string>
    var errorWords: ErrorWords

    constructor ()
      ensures ayahKeys == [] && errorWords == []
    {
      ayahKeys := [];
      errorWords := [];
    }

    /** Loading ayahs clears every mark (the effect keyed on `ayahs`). */
    method SetAyahs(keys: seq<string>)
      modifies this
      ensures ayahKeys == keys && errorWords == [] && TotalErrors(errorWords) == 0
    {
      ayahKeys := keys;
      errorWords := [];
    }

    /** `toggleWordError`, with no view mode on this page. */
    method ToggleWordError(key: string, w: int)
      modifies this
      ensures errorWords == Toggled(old(errorWords), key, w)
      ensures ayahKeys == old(ayahKeys)
    {
      var current := Distinct(WordsOf(errorWords, key));
      if w in current {
        current := Remove(current, w);
      } else {
        current := current + [w];
      }
      errorWords := Put(errorWords, key, current);
    }
  }
}
