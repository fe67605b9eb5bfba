/** The 114 surahs in mushaf order, al-Fatiha 1 through an-Nas 114: their
    Arabic names and ayah counts. Every surah table of the system that is keyed
    by name (the mushaf-order table, the name-to-id maps of the class pages and
    of the class handlers, the name-to-ayah-count map) lists these same pairs. */
module Mushaf {
  const SurahCount: int := 114

  predicate IsSurahId(id: int) {
    1 <= id <= SurahCount
  }

  /** The name of surah `id`, or "" outside 1..114. */
  function Name(id: int): string {
    if id <= 10 then NamesFrom1(id)
    else if id <= 20 then NamesFrom11(id)
    else if id <= 30 then NamesFrom21(id)
    else if id <= 40 then NamesFrom31(id)
    else if id <= 50 then NamesFrom41(id)
    else if id <= 60 then NamesFrom51(id)
    else if id <= 70 then NamesFrom61(id)
    else if id <= 80 then NamesFrom71(id)
    else if id <= 90 then NamesFrom81(id)
    else if id <= 100 then NamesFrom91(id)
    else if id <= 110 then NamesFrom101(id)
    else NamesFrom111(id)
  }

  function NamesFrom1(id: int): string {
    match id
    case 1 => "الفاتحة"
    case 2 => "البقرة"
    case 3 => "آل عمران"
    case 4 => "النساء"
    case 5 => "المائدة"
    case 6 => "الأنعام"
    case 7 => "الأعراف"
    case 8 => "الأنفال"
    case 9 => "التوبة"
    case 10 => "يونس"
    case _ => ""
  }

  function NamesFrom11(id: int): string {
    match id
    case 11 => "هود"
    case 12 => "يوسف"
    case 13 => "الرعد"
    case 14 => "إبراهيم"
    case 15 => "الحجر"
    case 16 => "النحل"
    case 17 => "الإسراء"
    case 18 => "الكهف"
    case 19 => "مريم"
    case 20 => "طه"
    case _ => ""
  }

  function NamesFrom21(id: int): string {
    match id
    case 21 => "الأنبياء"
    case 22 => "الحج"
    case 23 => "المؤمنون"
    case 24 => "النور"
    case 25 => "الفرقان"
    case 26 => "الشعراء"
    case 27 => "النمل"
    case 28 => "القصص"
    case 29 => "العنكبوت"
    case 30 => "الروم"
    case _ => ""
  }

  function NamesFrom31(id: int): string {
    match id
    case 31 => "لقمان"
    case 32 => "السجدة"
    case 33 => "الأحزاب"
    case 34 => "سبأ"
    case 35 => "فاطر"
    case 36 => "يس"
    case 37 => "الصافات"
    case 38 => "ص"
    case 39 => "الزمر"
    case 40 => "غافر"
    case _ => ""
  }

  function NamesFrom41(id: int): string {
    match id
    case 41 => "فصلت"
    case 42 => "الشورى"
    case 43 => "الزخرف"
    case 44 => "الدخان"
    case 45 => "الجاثية"
    case 46 => "الأحقاف"
    case 47 => "محمد"
    case 48 => "الفتح"
    case 49 => "الحجرات"
    case 50 => "ق"
    case _ => ""
  }

  function NamesFrom51(id: int): string {
    match id
    case 51 => "الذاريات"
    case 52 => "الطور"
    case 53 => "النجم"
    case 54 => "القمر"
    case 55 => "الرحمن"
    case 56 => "الواقعة"
    case 57 => "الحديد"
    case 58 => "المجادلة"
    case 59 => "الحشر"
    case 60 => "الممتحنة"
    case _ => ""
  }

  function NamesFrom61(id: int): string {
    match id
    case 61 => "الصف"
    case 62 => "الجمعة"
    case 63 => "المنافقون"
    case 64 => "التغابن"
    case 65 => "الطلاق"
    case 66 => "التحريم"
    case 67 => "الملك"
    case 68 => "القلم"
    case 69 => "الحاقة"
    case 70 => "المعارج"
    case _ => ""
  }

  function NamesFrom71(id: int): string {
    match id
    case 71 => "نوح"
    case 72 => "الجن"
    case 73 => "المزمل"
    case 74 => "المدثر"
    case 75 => "القيامة"
    case 76 => "الإنسان"
    case 77 => "المرسلات"
    case 78 => "النبأ"
    case 79 => "النازعات"
    case 80 => "عبس"
    case _ => ""
  }

  function NamesFrom81(id: int): string {
    match id
    case 81 => "التكوير"
    case 82 => "الانفطار"
    case 83 => "المطففين"
    case 84 => "الانشقاق"
    case 85 => "البروج"
    case 86 => "الطارق"
    case 87 => "الأعلى"
    case 88 => "الغاشية"
    case 89 => "الفجر"
    case 90 => "البلد"
    case _ => ""
  }

  function NamesFrom91(id: int): string {
    match id
    case 91 => "الشمس"
    case 92 => "الليل"
    case 93 => "الضحى"
    case 94 => "الشرح"
    case 95 => "التين"
    case 96 => "العلق"
    case 97 => "القدر"
    case 98 => "البينة"
    case 99 => "الزلزلة"
    case 100 => "العاديات"
    case _ => ""
  }

  function NamesFrom101(id: int): string {
    match id
    case 101 => "القارعة"
    case 102 => "التكاثر"
    case 103 => "العصر"
    case 104 => "الهمزة"
    case 105 => "الفيل"
    case 106 => "قريش"
    case 107 => "الماعون"
    case 108 => "الكوثر"
    case 109 => "الكافرون"
    case 110 => "النصر"
    case _ => ""
  }

  function NamesFrom111(id: int): string {
    match id
    case 111 => "المسد"
    case 112 => "الإخلاص"
    case 113 => "الفلق"
    case 114 => "الناس"
    case _ => ""
  }

  /** The number of ayahs of surah `id`, or 0 outside 1..114. */
  function AyahCount(id: int): (n: nat)
    ensures n > 0 <==> IsSurahId(id)
  {
    if id < 1 then 0
    else if id <= 10 then AyahCountFrom1(id)
    else if id <= 20 then AyahCountFrom11(id)
    else if id <= 30 then AyahCountFrom21(id)
    else if id <= 40 then AyahCountFrom31(id)
    else if id <= 50 then AyahCountFrom41(id)
    else if id <= 60 then AyahCountFrom51(id)
    else if id <= 70 then AyahCountFrom61(id)
    else if id <= 80 then AyahCountFrom71(id)
    else if id <= 90 then AyahCountFrom81(id)
    else if id <= 100 then AyahCountFrom91(id)
    else if id <= 110 then AyahCountFrom101(id)
    else if id <= 114 then AyahCountFrom111(id)
    else 0
  }

  function AyahCountFrom1(id: int): nat {
    match id
    case 1 => 7
    case 2 => 286
    case 3 => 200
    case 4 => 176
    case 5 => 120
    case 6 => 165
    case 7 => 206
    case 8 => 75
    case 9 => 129
    case 10 => 109
    case _ => 0
  }

  function AyahCountFrom11(id: int): nat {
    match id
    case 11 => 123
    case 12 => 111
    case 13 => 43
    case 14 => 52
    case 15 => 99
    case 16 => 128
    case 17 => 111
    case 18 => 110
    case 19 => 98
    case 20 => 135
    case _ => 0
  }

  function AyahCountFrom21(id: int): nat {
    match id
    case 21 => 112
    case 22 => 78
    case 23 => 118
    case 24 => 64
    case 25 => 77
    case 26 => 227
    case 27 => 93
    case 28 => 88
    case 29 => 69
    case 30 => 60
    case _ => 0
  }

  function AyahCountFrom31(id: int): nat {
    match id
    case 31 => 34
    case 32 => 30
    case 33 => 73
    case 34 => 54
    case 35 => 45
    case 36 => 83
    case 37 => 182
    case 38 => 88
    case 39 => 75
    case 40 => 85
    case _ => 0
  }

  function AyahCountFrom41(id: int): nat {
    match id
    case 41 => 54
    case 42 => 53
    case 43 => 89
    case 44 => 59
    case 45 => 37
    case 46 => 35
    case 47 => 38
    case 48 => 29
    case 49 => 18
    case 50 => 45
    case _ => 0
  }

  function AyahCountFrom51(id: int): nat {
    match id
    case 51 => 60
    case 52 => 49
    case 53 => 62
    case 54 => 55
    case 55 => 78
    case 56 => 96
    case 57 => 29
    case 58 => 22
    case 59 => 24
    case 60 => 13
    case _ => 0
  }

  function AyahCountFrom61(id: int): nat {
    match id
    case 61 => 14
    case 62 => 11
    case 63 => 11
    case 64 => 18
    case 65 => 12
    case 66 => 12
    case 67 => 30
    case 68 => 52
    case 69 => 52
    case 70 => 44
    case _ => 0
  }

  function AyahCountFrom71(id: int): nat {
    match id
    case 71 => 28
    case 72 => 28
    case 73 => 20
    case 74 => 56
    case 75 => 40
    case 76 => 31
    case 77 => 50
    case 78 => 40
    case 79 => 46
    case 80 => 42
    case _ => 0
  }

  function AyahCountFrom81(id: int): nat {
    match id
    case 81 => 29
    case 82 => 19
    case 83 => 36
    case 84 => 25
    case 85 => 22
    case 86 => 17
    case 87 => 19
    case 88 => 26
    case 89 => 30
    case 90 => 20
    case _ => 0
  }

  function AyahCountFrom91(id: int): nat {
    match id
    case 91 => 15
    case 92 => 21
    case 93 => 11
    case 94 => 8
    case 95 => 8
    case 96 => 19
    case 97 => 5
    case 98 => 8
    case 99 => 8
    case 100 => 11
    case _ => 0
  }

  function AyahCountFrom101(id: int): nat {
    match id
    case 101 => 11
    case 102 => 8
    case 103 => 3
    case 104 => 9
    case 105 => 5
    case 106 => 4
    case 107 => 7
    case 108 => 3
    case 109 => 6
    case 110 => 3
    case _ => 0
  }

  function AyahCountFrom111(id: int): nat {
    match id
    case 111 => 5
    case 112 => 4
    case 113 => 5
    case 114 => 6
    case _ => 0
  }

  // No two surahs share a name. A string's key packs its length and its last
  // four character codes; DecodeKey maps the key of every surah name back to
  // the surah's id, so two ids with the same name are the same id.

  /** The code of the `j`-th character from the end of `s`, or 0. */
  function CharCode(s: string, j: nat): int {
    if j < |s| then s[|s| - 1 - j] as int else 0
  }

  function Key(s: string): int {
    (((|s| * 2048 + CharCode(s, 0)) * 2048 + CharCode(s, 1)) * 2048 + CharCode(s, 2)) * 2048 + CharCode(s, 3)
  }

  /** The id whose name has key `k`, dispatched on the name length `k / 2048^4`. */
  function DecodeKey(k: int): int {
    match k / 0x1000_0000_0000
    case 1 => DecodeLength1(k)
    case 2 => DecodeLength2(k)
    case 3 => DecodeLength3(k)
    case 4 => DecodeLength4(k)
    case 5 => DecodeLength5(k)
    case 6 => DecodeLength6(k)
    case 7 => DecodeLength7(k)
    case 8 => DecodeLength8(k)
    case 9 => DecodeLength9(k)
    case _ => 0
  }

  function DecodeLength1(k: int): int {
    match k
    case 31241592111104 => 38
    case 31353261260800 => 50
    case _ => 0
  }

  function DecodeLength2(k: int): int {
    match k
    case 48995070115840 => 20
    case 48823351115776 => 36
    case _ => 0
  }

  function DecodeLength3(k: int): int {
    match k
    case 66381172324352 => 11
    case 66277958850560 => 34
    case 66363992453120 => 71
    case 66415397816320 => 80
    case _ => 0
  }

  function DecodeLength4(k: int): int {
    match k
    case 84007709722186 => 10
    case 84127889114698 => 12
    case 84162345274949 => 19
    case 83947475314215 => 22
    case 83990466870849 => 35
    case 83990508813882 => 40
    case 83930391883329 => 41
    case 83973345734213 => 47
    case 84127897495079 => 61
    case 84170809419303 => 72
    case 84016316386882 => 106
    case _ => 0
  }

  function DecodeLength5(k: int): int {
    match k
    case 101565481455172 => 13
    case 101582606790212 => 15
    case 101745819792964 => 16
    case 101720159034948 => 18
    case 101582724281924 => 24
    case 101745920456260 => 27
    case 101617004320324 => 28
    case 101754522930756 => 30
    case 101762974494274 => 31
    case 101582711658052 => 39
    case 101548238704196 => 48
    case 101582724251204 => 52
    case 101754405533252 => 53
    case 101582711690820 => 54
    case 101582640344644 => 59
    case 101737326325316 => 67
    case 101754506188356 => 68
    case 101462330979908 => 78
    case 101582606831172 => 89
    case 101565527574084 => 90
    case 101599891531332 => 91
    case 101745941423684 => 92
    case 101788769433156 => 93
    case 101548268037700 => 94
    case 101763121239620 => 95
    case 101728736366148 => 96
    case 101582619416132 => 97
    case 101582644563524 => 103
    case 101745941417540 => 105
    case 101582644590148 => 110
    case 101565456330308 => 111
    case 101728736382532 => 113
    case 101599765739076 => 114
    case _ => 0
  }

  function DecodeLength6(k: int): int {
    match k
    case 119106094372392 => 2
    case 119037332921926 => 4
    case 119106056635946 => 9
    case 119106085938739 => 32
    case 119380972291636 => 42
    case 119312252761650 => 43
    case 119355160491567 => 44
    case 119355286318641 => 55
    case 119157738798637 => 57
    case 119106127932972 => 62
    case 119320800798263 => 65
    case 119106165620269 => 69
    case 119338106459717 => 73
    case 119174788644421 => 74
    case 119131960610344 => 85
    case 119320842681911 => 86
    case 119381051952675 => 87
    case 119106182469160 => 98
    case 119106098572871 => 104
    case 119174788695619 => 108
    case _ => 0
  }

  function DecodeLength7(k: int): int {
    match k
    case 136698263590439 => 1
    case 136698271970855 => 5
    case 136938756623942 => 6
    case 136904396869177 => 7
    case 136930166705734 => 8
    case 136938903453223 => 14
    case 136629518962227 => 17
    case 136947346576945 => 25
    case 136629518962233 => 26
    case 136689648506413 => 33
    case 136706828406311 => 37
    case 136698385227303 => 45
    case 136904396903981 => 46
    case 136706828373548 => 49
    case 136698313971239 => 56
    case 136947350715962 => 64
    case 136938903408173 => 66
    case 136724050165305 => 70
    case 136698364247626 => 75
    case 136947346546246 => 76
    case 136767104763459 => 81
    case 136698385245735 => 88
    case 136698360075844 => 99
    case 136698313936423 => 101
    case 136766974672451 => 102
    case 136947484970535 => 107
    case 136801317692974 => 112
    case _ => 0
  }

  function DecodeLength8(k: int): int {
    match k
    case 154539532586565 => 3
    case 154221705057832 => 21
    case 154539671041605 => 23
    case 154299152811587 => 29
    case 154299014469169 => 51
    case 154290546114087 => 58
    case 154290554498602 => 60
    case 154299014456883 => 77
    case 154299014434354 => 79
    case 154359143972417 => 82
    case 154539679419969 => 83
    case 154505172882996 => 84
    case 154299014469167 => 100
    case 154539670998593 => 109
    case _ => 0
  }

  function DecodeLength9(k: int): int {
    match k
    case 172131857077825 => 63
    case _ => 0
  }

  lemma Decodes1(id: int)
    requires 1 <= id < 3
    ensures DecodeKey(Key(Name(id))) == id
  {
    if id == 1 {} else {}
  }

  lemma Decodes3(id: int)
    requires 3 <= id < 5
    ensures DecodeKey(Key(Name(id))) == id
  {
    if id == 3 {} else {}
  }

  lemma Decodes5(id: int)
    requires 5 <= id < 7
    ensures DecodeKey(Key(Name(id))) == id
  {
    if id == 5 {} else {}
  }

  lemma Decodes7(id: int)
    requires 7 <= id < 9
    ensures DecodeKey(Key(Name(id))) == id
  {
    if id == 7 {} else {}
  }

  lemma Decodes9(id: int)
    requires 9 <= id < 11
    ensures DecodeKey(Key(Name(id))) == id
  {
    if id == 9 {} else {}
  }

  lemma Decodes11(id: int)
    requires 11 <= id < 13
    ensures DecodeKey(Key(Name(id))) == id
  {
    if id == 11 {} else {}
  }

  lemma Decodes13(id: int)
    requires 13 <= id < 15
    ensures DecodeKey(Key(Name(id))) == id
  {
    if id == 13 {} else {}
  }

  lemma Decodes15(id: int)
    requires 15 <= id < 17
    ensures DecodeKey(Key(Name(id))) == id
  {
    if id == 15 {} else {}
  }

  lemma Decodes17(id: int)
    requires 17 <= id < 19
    ensures DecodeKey(Key(Name(id))) == id
  {
    if id == 17 {} else {}
  }

  lemma Decodes19(id: int)
    requires 19 <= id < 21
    ensures DecodeKey(Key(Name(id))) == id
  {
    if id == 19 {} else {}
  }

  lemma Decodes21(id: int)
    requires 21 <= id < 23
    ensures DecodeKey(Key(Name(id))) == id
  {
    if id == 21 {} else {}
  }

  lemma Decodes23(id: int)
    requires 23 <= id < 25
    ensures DecodeKey(Key(Name(id))) == id
  {
    if id == 23 {} else {}
  }

  lemma Decodes25(id: int)
    requires 25 <= id < 27
    ensures DecodeKey(Key(Name(id))) == id
  {
    if id == 25 {} else {}
  }

  lemma Decodes27(id: int)
    requires 27 <= id < 29
    ensures DecodeKey(Key(Name(id))) == id
  {
    if id == 27 {} else {}
  }

  lemma Decodes29(id: int)
    requires 29 <= id < 31
    ensures DecodeKey(Key(Name(id))) == id
  {
    if id == 29 {} else {}
  }

  lemma Decodes31(id: int)
    requires 31 <= id < 33
    ensures DecodeKey(Key(Name(id))) == id
  {
    if id == 31 {} else {}
  }

  lemma Decodes33(id: int)
    requires 33 <= id < 35
    ensures DecodeKey(Key(Name(id))) == id
  {
    if id == 33 {} else {}
  }

  lemma Decodes35(id: int)
    requires 35 <= id < 37
    ensures DecodeKey(Key(Name(id))) == id
  {
    if id == 35 {} else {}
  }

  lemma Decodes37(id: int)
    requires 37 <= id < 39
    ensures DecodeKey(Key(Name(id))) == id
  {
    if id == 37 {} else {}
  }

  lemma Decodes39(id: int)
    requires 39 <= id < 41
    ensures DecodeKey(Key(Name(id))) == id
  {
    if id == 39 {} else {}
  }

  lemma Decodes41(id: int)
    requires 41 <= id < 43
    ensures DecodeKey(Key(Name(id))) == id
  {
    if id == 41 {} else {}
  }

  lemma Decodes43(id: int)
    requires 43 <= id < 45
    ensures DecodeKey(Key(Name(id))) == id
  {
    if id == 43 {} else {}
  }

  lemma Decodes45(id: int)
    requires 45 <= id < 47
    ensures DecodeKey(Key(Name(id))) == id
  {
    if id == 45 {} else {}
  }

  lemma Decodes47(id: int)
    requires 47 <= id < 49
    ensures DecodeKey(Key(Name(id))) == id
  {
    if id == 47 {} else {}
  }

  lemma Decodes49(id: int)
    requires 49 <= id < 51
    ensures DecodeKey(Key(Name(id))) == id
  {
    if id == 49 {} else {}
  }

  lemma Decodes51(id: int)
    requires 51 <= id < 53
    ensures DecodeKey(Key(Name(id))) == id
  {
    if id == 51 {} else {}
  }

  lemma Decodes53(id: int)
    requires 53 <= id < 55
    ensures DecodeKey(Key(Name(id))) == id
  {
    if id == 53 {} else {}
  }

  lemma Decodes55(id: int)
    requires 55 <= id < 57
    ensures DecodeKey(Key(Name(id))) == id
  {
    if id == 55 {} else {}
  }

  lemma Decodes57(id: int)
    requires 57 <= id < 59
    ensures DecodeKey(Key(Name(id))) == id
  {
    if id == 57 {} else {}
  }

  lemma Decodes59(id: int)
    requires 59 <= id < 61
    ensures DecodeKey(Key(Name(id))) == id
  {
    if id == 59 {} else {}
  }

  lemma Decodes61(id: int)
    requires 61 <= id < 63
    ensures DecodeKey(Key(Name(id))) == id
  {
    if id == 61 {} else {}
  }

  lemma Decodes63(id: int)
    requires 63 <= id < 65
    ensures DecodeKey(Key(Name(id))) == id
  {
    if id == 63 {} else {}
  }

  lemma Decodes65(id: int)
    requires 65 <= id < 67
    ensures DecodeKey(Key(Name(id))) == id
  {
    if id == 65 {} else {}
  }

  lemma Decodes67(id: int)
    requires 67 <= id < 69
    ensures DecodeKey(Key(Name(id))) == id
  {
    if id == 67 {} else {}
  }

  lemma Decodes69(id: int)
    requires 69 <= id < 71
    ensures DecodeKey(Key(Name(id))) == id
  {
    if id == 69 {} else {}
  }

  lemma Decodes71(id: int)
    requires 71 <= id < 73
    ensures DecodeKey(Key(Name(id))) == id
  {
    if id == 71 {} else {}
  }

  lemma Decodes73(id: int)
    requires 73 <= id < 75
    ensures DecodeKey(Key(Name(id))) == id
  {
    if id == 73 {} else {}
  }

  lemma Decodes75(id: int)
    requires 75 <= id < 77
    ensures DecodeKey(Key(Name(id))) == id
  {
    if id == 75 {} else {}
  }

  lemma Decodes77(id: int)
    requires 77 <= id < 79
    ensures DecodeKey(Key(Name(id))) == id
  {
    if id == 77 {} else {}
  }

  lemma Decodes79(id: int)
    requires 79 <= id < 81
    ensures DecodeKey(Key(Name(id))) == id
  {
    if id == 79 {} else {}
  }

  lemma Decodes81(id: int)
    requires 81 <= id < 83
    ensures DecodeKey(Key(Name(id))) == id
  {
    if id == 81 {} else {}
  }

  lemma Decodes83(id: int)
    requires 83 <= id < 85
    ensures DecodeKey(Key(Name(id))) == id
  {
    if id == 83 {} else {}
  }

  lemma Decodes85(id: int)
    requires 85 <= id < 87
    ensures DecodeKey(Key(Name(id))) == id
  {
    if id == 85 {} else {}
  }

  lemma Decodes87(id: int)
    requires 87 <= id < 89
    ensures DecodeKey(Key(Name(id))) == id
  {
    if id == 87 {} else {}
  }

  lemma Decodes89(id: int)
    requires 89 <= id < 91
    ensures DecodeKey(Key(Name(id))) == id
  {
    if id == 89 {} else {}
  }

  lemma Decodes91(id: int)
    requires 91 <= id < 93
    ensures DecodeKey(Key(Name(id))) == id
  {
    if id == 91 {} else {}
  }

  lemma Decodes93(id: int)
    requires 93 <= id < 95
    ensures DecodeKey(Key(Name(id))) == id
  {
    if id == 93 {} else {}
  }

  lemma Decodes95(id: int)
    requires 95 <= id < 97
    ensures DecodeKey(Key(Name(id))) == id
  {
    if id == 95 {} else {}
  }

  lemma Decodes97(id: int)
    requires 97 <= id < 99
    ensures DecodeKey(Key(Name(id))) == id
  {
    if id == 97 {} else {}
  }

  lemma Decodes99(id: int)
    requires 99 <= id < 101
    ensures DecodeKey(Key(Name(id))) == id
  {
    if id == 99 {} else {}
  }

  lemma Decodes101(id: int)
    requires 101 <= id < 103
    ensures DecodeKey(Key(Name(id))) == id
  {
    if id == 101 {} else {}
  }

  lemma Decodes103(id: int)
    requires 103 <= id < 105
    ensures DecodeKey(Key(Name(id))) == id
  {
    if id == 103 {} else {}
  }

  lemma Decodes105(id: int)
    requires 105 <= id < 107
    ensures DecodeKey(Key(Name(id))) == id
  {
    if id == 105 {} else {}
  }

  lemma Decodes107(id: int)
    requires 107 <= id < 109
    ensures DecodeKey(Key(Name(id))) == id
  {
    if id == 107 {} else {}
  }

  lemma Decodes109(id: int)
    requires 109 <= id < 111
    ensures DecodeKey(Key(Name(id))) == id
  {
    if id == 109 {} else {}
  }

  lemma Decodes111(id: int)
    requires 111 <= id < 113
    ensures DecodeKey(Key(Name(id))) == id
  {
    if id == 111 {} else {}
  }

  lemma Decodes113(id: int)
    requires 113 <= id < 115
    ensures DecodeKey(Key(Name(id))) == id
  {
    if id == 113 {} else {}
  }

  lemma DecodesName(id: int)
    requires IsSurahId(id)
    ensures DecodeKey(Key(Name(id))) == id
  {
    if id < 3 {
      Decodes1(id);
    } else if id < 5 {
      Decodes3(id);
    } else if id < 7 {
      Decodes5(id);
    } else if id < 9 {
      Decodes7(id);
    } else if id < 11 {
      Decodes9(id);
    } else if id < 13 {
      Decodes11(id);
    } else if id < 15 {
      Decodes13(id);
    } else if id < 17 {
      Decodes15(id);
    } else if id < 19 {
      Decodes17(id);
    } else if id < 21 {
      Decodes19(id);
    } else if id < 23 {
      Decodes21(id);
    } else if id < 25 {
      Decodes23(id);
    } else if id < 27 {
      Decodes25(id);
    } else if id < 29 {
      Decodes27(id);
    } else if id < 31 {
      Decodes29(id);
    } else if id < 33 {
      Decodes31(id);
    } else if id < 35 {
      Decodes33(id);
    } else if id < 37 {
      Decodes35(id);
    } else if id < 39 {
      Decodes37(id);
    } else if id < 41 {
      Decodes39(id);
    } else if id < 43 {
      Decodes41(id);
    } else if id < 45 {
      Decodes43(id);
    } else if id < 47 {
      Decodes45(id);
    } else if id < 49 {
      Decodes47(id);
    } else if id < 51 {
      Decodes49(id);
    } else if id < 53 {
      Decodes51(id);
    } else if id < 55 {
      Decodes53(id);
    } else if id < 57 {
      Decodes55(id);
    } else if id < 59 {
      Decodes57(id);
    } else if id < 61 {
      Decodes59(id);
    } else if id < 63 {
      Decodes61(id);
    } else if id < 65 {
      Decodes63(id);
    } else if id < 67 {
      Decodes65(id);
    } else if id < 69 {
      Decodes67(id);
    } else if id < 71 {
      Decodes69(id);
    } else if id < 73 {
      Decodes71(id);
    } else if id < 75 {
      Decodes73(id);
    } else if id < 77 {
      Decodes75(id);
    } else if id < 79 {
      Decodes77(id);
    } else if id < 81 {
      Decodes79(id);
    } else if id < 83 {
      Decodes81(id);
    } else if id < 85 {
      Decodes83(id);
    } else if id < 87 {
      Decodes85(id);
    } else if id < 89 {
      Decodes87(id);
    } else if id < 91 {
      Decodes89(id);
    } else if id < 93 {
      Decodes91(id);
    } else if id < 95 {
      Decodes93(id);
    } else if id < 97 {
      Decodes95(id);
    } else if id < 99 {
      Decodes97(id);
    } else if id < 101 {
      Decodes99(id);
    } else if id < 103 {
      Decodes101(id);
    } else if id < 105 {
      Decodes103(id);
    } else if id < 107 {
      Decodes105(id);
    } else if id < 109 {
      Decodes107(id);
    } else if id < 111 {
      Decodes109(id);
    } else if id < 113 {
      Decodes111(id);
    } else {
      Decodes113(id);
    }
  }

  lemma NamesDistinct(a: int, b: int)
    requires IsSurahId(a) && IsSurahId(b) && a != b
    ensures Name(a) != Name(b)
  {
    DecodesName(a);
    DecodesName(b);
  }

  /** Every surah has a non-empty name, so "" marks an unknown id. */
  lemma NameNonEmpty(id: int)
    requires IsSurahId(id)
    ensures Name(id) != ""
  {
    DecodesName(id);
    assert Key("") == 0;
  }

  /** The id of the surah called `s`, or 0 when no surah has that name. */
  function IdOfName(s: string): (id: int)
    ensures id == 0 || (IsSurahId(id) && Name(id) == s)
  {
    var id := DecodeKey(Key(s));
    if IsSurahId(id) && Name(id) == s then id else 0
  }

  /** Name and IdOfName are inverse: each surah's name looks up its own id. */
  lemma IdOfNameOfName(id: int)
    requires IsSurahId(id)
    ensures IdOfName(Name(id)) == id
  {
    DecodesName(id);
  }

  /** A string that is no surah's name looks up 0. */
  lemma IdOfNameUnknown(s: string)
    ensures IdOfName(s) == 0 <==> forall id :: IsSurahId(id) ==> Name(id) != s
  {
    if IdOfName(s) == 0 {
      forall id | IsSurahId(id)
        ensures Name(id) != s
      {
        if Name(id) == s {
          IdOfNameOfName(id);
        }
      }
    }
  }
}
