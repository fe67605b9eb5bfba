/** The surah table the pages import (`QURAN_SURAHS` in memorisation order).
    Its rows are not part of this model, so it is a parameter, and the
    functions over it assume what that constant table satisfies: positive
    distinct ids, distinct names, and positive ayah and page counts. */
module SurahTable {
  import opened Common

  datatype Surah = Surah(id: int, name: string, ayahCount: int, totalPages: int)

  predicate WellFormed(t: seq<Surah>) {
    && (forall i :: 0 <= i < |t| ==> t[i].id > 0 && t[i].ayahCount > 0 && t[i].totalPages > 0)
    && (forall i, j :: 0 <= i < j < |t| ==> t[i].id != t[j].id && t[i].name != t[j].name)
  }

  /** `findIndex(s => s.id == id)`. */
  function IndexOfId(t: seq<Surah>, id: int): (r: Option<nat>)
    ensures r.Some? ==> r.value < |t| && t[r.value].id == id
    ensures r.Some? ==> forall j :: 0 <= j < r.value ==> t[j].id != id
    ensures r.None? <==> forall j :: 0 <= j < |t| ==> t[j].id != id
  {
    if |t| == 0 then None
    else if t[0].id == id then Some(0)
    else
      var rest := IndexOfId(t[1..], id);
      assert forall j :: 1 <= j < |t| ==> t[j] == t[1..][j - 1];
      if rest.None? then None else Some(rest.value + 1)
  }

  /** `find(s => s.id == id)`. */
  function Find(t: seq<Surah>, id: int): (r: Option<Surah>)
    ensures r.Some? ==> r.value in t && r.value.id == id
    ensures r.None? <==> forall j :: 0 <= j < |t| ==> t[j].id != id
  {
    match IndexOfId(t, id)
    case Some(i) => Some(t[i])
    case None => None
  }

  /** `getMemorizationPosition`: one past the row's index, or 0 when no row has this id. */
  function Position(t: seq<Surah>, id: int): (p: int)
    ensures 0 <= p <= |t|
    ensures p == 0 <==> Find(t, id).None?
  {
    match IndexOfId(t, id)
    case Some(i) => i + 1
    case None => 0
  }

  /** `getSurahIdFromPosition`: the id of row `position - 1`, or 0 outside 1..|t|. */
  function SurahIdAt(t: seq<Surah>, position: int): (id: int)
    ensures 1 <= position <= |t| ==> id == t[position - 1].id
    ensures !(1 <= position <= |t|) ==> id == 0
  {
    if position < 1 || position > |t| then 0 else t[position - 1].id
  }

  /** Position and SurahIdAt are inverse on a well-formed table. */
  lemma PositionRoundTrip(t: seq<Surah>, id: int, p: int)
    requires WellFormed(t)
    ensures Find(t, id).Some? ==> SurahIdAt(t, Position(t, id)) == id
    ensures 1 <= p <= |t| ==> Position(t, SurahIdAt(t, p)) == p
  {
    if 1 <= p <= |t| {
      var i := IndexOfId(t, t[p - 1].id);
      assert i.Some?;
    }
  }

  /** The row the loops look up for a position: `find(s => s.id === getSurahIdFromPosition(pos))`. */
  function RowAt(t: seq<Surah>, pos: int): (r: Option<Surah>)
    requires WellFormed(t)
    ensures 1 <= pos <= |t| ==> r == Some(t[pos - 1])
    ensures !(1 <= pos <= |t|) ==> r.None?
  {
    PositionRoundTrip(t, 0, pos);
    Find(t, SurahIdAt(t, pos))
  }

  /** The ayah count of the row at `pos`, or 0 where the loops skip a position. */
  function CountAt(t: seq<Surah>, pos: int): (n: int)
    requires WellFormed(t)
    ensures 1 <= pos <= |t| ==> n == t[pos - 1].ayahCount > 0
    ensures !(1 <= pos <= |t|) ==> n == 0
    ensures n >= 0
  {
    match RowAt(t, pos)
    case Some(s) => s.ayahCount
    case None => 0
  }

  /** The ayahs of the positions `a` up to but excluding `b`. */
  function FullAyahs(t: seq<Surah>, a: int, b: int): int
    requires WellFormed(t)
    decreases b - a
  {
    if b <= a then 0 else FullAyahs(t, a, b - 1) + CountAt(t, b - 1)
  }

  lemma {:induction false} FullAyahsNonNegative(t: seq<Surah>, a: int, b: int)
    requires WellFormed(t)
    ensures FullAyahs(t, a, b) >= 0
    decreases b - a
  {
    if a < b {
      FullAyahsNonNegative(t, a, b - 1);
    }
  }
}
