/** The Korean display names of the dashboard's city cards: a table of
    country names, a table of city names and a table of flags keyed by the
    Korean country name, and the lookup that falls back to the name it is
    given. Each table is the list of entries of its object literal, in
    source order; the city table is the concatenation of its regional
    groups. */
module KoreanNames {
  import opened Wrappers

  /** The entries of a JS object literal, in the order they are written. */
  type Entries = seq<(string, string)>

  /** The table lists the key. */
  predicate HasKey(table: Entries, key: string)
  {
    exists i :: 0 <= i < |table| && table[i].0 == key
  }

  /** `table[key]`: the value of the last entry with that key (a later
      duplicate key overrides an earlier one), or undefined. */
  function Lookup(table: Entries, key: string): (r: Option<string>)
    ensures r.Some? <==> HasKey(table, key)
    ensures r.Some? ==> (key, r.value) in table
  {
    if table == [] then None
    else if table[|table| - 1].0 == key then Some(table[|table| - 1].1)
    else Lookup(table[..|table| - 1], key)
  }

  /** In a concatenation the entries of the second part win. */
  lemma {:induction false} LookupConcat(a: Entries, b: Entries, key: string)
    ensures Lookup(a + b, key) == if Lookup(b, key).Some? then Lookup(b, key) else Lookup(a, key)
  {
    if b != [] {
      assert (a + b)[..|a + b| - 1] == a + b[..|b| - 1];
      LookupConcat(a, b[..|b| - 1], key);
    } else {
      assert a + b == a;
    }
  }

  /** `countryKoreanNames`. */
  const CountryNames: Entries := [
      ("South Korea", "대한민국"),
      ("United States", "미국"),
      ("Japan", "일본"),
      ("China", "중국"),
      ("Australia", "호주"),
      ("Canada", "캐나다"),
      ("United Kingdom", "영국"),
      ("Germany", "독일"),
      ("France", "프랑스"),
      ("Singapore", "싱가포르"),
      ("Hong Kong", "홍콩"),
      ("Taiwan", "대만"),
      ("Thailand", "태국"),
      ("Vietnam", "베트남"),
      ("Philippines", "필리핀"),
      ("Indonesia", "인도네시아"),
      ("Malaysia", "말레이시아"),
      ("India", "인도"),
      ("Brazil", "브라질"),
      ("Mexico", "멕시코"),
      ("(other)", "기타"),
      ("(not set)", "미확인")
    ]

  /** `cityKoreanNames`, major Korean cities. */
  const MajorCities: Entries := [
      ("Seoul", "서울"),
      ("Busan", "부산"),
      ("Incheon", "인천"),
      ("Daegu", "대구"),
      ("Daejeon", "대전"),
      ("Gwangju", "광주"),
      ("Ulsan", "울산"),
      ("Sejong", "세종")
    ]

  /** `cityKoreanNames`, Gyeonggi Province. */
  const GyeonggiCities: Entries := [
      ("Suwon-si", "수원시"),
      ("Goyang-si", "고양시"),
      ("Yongin-si", "용인시"),
      ("Seongnam-si", "성남시"),
      ("Bucheon-si", "부천시"),
      ("Ansan-si", "안산시"),
      ("Namyangju-si", "남양주시"),
      ("Anyang-si", "안양시"),
      ("Hwaseong-si", "화성시"),
      ("Pyeongtaek-si", "평택시"),
      ("Uijeongbu-si", "의정부시"),
      ("Paju-si", "파주시"),
      ("Siheung-si", "시흥시"),
      ("Gimpo-si", "김포시"),
      ("Gwangmyeong-si", "광명시"),
      ("Gwangju-si", "광주시"),
      ("Gunpo-si", "군포시"),
      ("Osan-si", "오산시"),
      ("Icheon-si", "이천시"),
      ("Yangju-si", "양주시"),
      ("Guri-si", "구리시"),
      ("Pocheon-si", "포천시"),
      ("Hanam-si", "하남시"),
      ("Dongducheon-si", "동두천시"),
      ("Gwacheon-si", "과천시"),
      ("Yeoju-si", "여주시")
    ]

  /** `cityKoreanNames`, Gangwon Province. */
  const GangwonCities: Entries := [
      ("Chuncheon-si", "춘천시"),
      ("Wonju-si", "원주시"),
      ("Gangneung-si", "강릉시"),
      ("Donghae-si", "동해시"),
      ("Sokcho-si", "속초시"),
      ("Samcheok-si", "삼척시"),
      ("Taebaek-si", "태백시")
    ]

  /** `cityKoreanNames`, North Chungcheong Province. */
  const NorthChungcheongCities: Entries := [
      ("Cheongju-si", "청주시"),
      ("Chungju-si", "충주시"),
      ("Jecheon-si", "제천시")
    ]

  /** `cityKoreanNames`, South Chungcheong Province. */
  const SouthChungcheongCities: Entries := [
      ("Cheonan-si", "천안시"),
      ("Asan-si", "아산시"),
      ("Seosan-si", "서산시"),
      ("Nonsan-si", "논산시"),
      ("Gyeryong-si", "계룡시"),
      ("Dangjin-si", "당진시"),
      ("Gongju-si", "공주시"),
      ("Boryeong-si", "보령시")
    ]

  /** `cityKoreanNames`, North Jeolla Province. */
  const NorthJeollaCities: Entries := [
      ("Jeonju-si", "전주시"),
      ("Iksan-si", "익산시"),
      ("Gunsan-si", "군산시"),
      ("Jeongeup-si", "정읍시"),
      ("Namwon-si", "남원시"),
      ("Gimje-si", "김제시")
    ]

  /** `cityKoreanNames`, South Jeolla Province. */
  const SouthJeollaCities: Entries := [
      ("Mokpo-si", "목포시"),
      ("Yeosu-si", "여수시"),
      ("Suncheon-si", "순천시"),
      ("Naju-si", "나주시"),
      ("Gwangyang-si", "광양시")
    ]

  /** `cityKoreanNames`, North Gyeongsang Province. */
  const NorthGyeongsangCities: Entries := [
      ("Pohang-si", "포항시"),
      ("Gyeongju-si", "경주시"),
      ("Gimcheon-si", "김천시"),
      ("Andong-si", "안동시"),
      ("Gumi-si", "구미시"),
      ("Yeongju-si", "영주시"),
      ("Yeongcheon-si", "영천시"),
      ("Sangju-si", "상주시"),
      ("Mungyeong-si", "문경시"),
      ("Gyeongsan-si", "경산시")
    ]

  /** `cityKoreanNames`, South Gyeongsang Province. */
  const SouthGyeongsangCities: Entries := [
      ("Changwon-si", "창원시"),
      ("Jinju-si", "진주시"),
      ("Tongyeong-si", "통영시"),
      ("Sacheon-si", "사천시"),
      ("Gimhae-si", "김해시"),
      ("Miryang-si", "밀양시"),
      ("Geoje-si", "거제시"),
      ("Yangsan-si", "양산시")
    ]

  /** `cityKoreanNames`, Jeju Province. */
  const JejuCities: Entries := [
      ("Jeju-si", "제주시"),
      ("Seogwipo-si", "서귀포시")
    ]

  /** `cityKoreanNames`, counties (gun). */
  const Counties: Entries := [
      ("Haenam-gun", "해남군"),
      ("Yeongam-gun", "영암군"),
      ("Hwasun-gun", "화순군")
    ]

  /** `cityKoreanNames`, foreign cities. */
  const ForeignCities: Entries := [
      ("Tokyo", "도쿄"),
      ("Osaka", "오사카"),
      ("New York", "뉴욕"),
      ("Los Angeles", "로스앤젤레스"),
      ("Beijing", "베이징"),
      ("Shanghai", "상하이"),
      ("London", "런던"),
      ("Paris", "파리"),
      ("Sydney", "시드니"),
      ("Brisbane", "브리즈번"),
      ("Melbourne", "멜버른"),
      ("Toronto", "토론토"),
      ("Vancouver", "밴쿠버")
    ]

  /** `cityKoreanNames`, the catch-all rows. */
  const OtherCities: Entries := [
      ("(other)", "기타"),
      ("(not set)", "미확인")
    ]

  /** The cities `cityKoreanNames` names, all groups but the catch-all
      rows. */
  const NamedCities: Entries :=
    MajorCities
      + GyeonggiCities
      + GangwonCities
      + NorthChungcheongCities
      + SouthChungcheongCities
      + NorthJeollaCities
      + SouthJeollaCities
      + NorthGyeongsangCities
      + SouthGyeongsangCities
      + JejuCities
      + Counties
      + ForeignCities

  /** `cityKoreanNames`: the groups one after the other. */
  const CityNames: Entries := NamedCities + OtherCities

  /** `countryFlags`, keyed by the Korean country name. */
  const CountryFlags: Entries := [
      ("미국", "\U{1F1FA}\U{1F1F8}"),
      ("일본", "\U{1F1EF}\U{1F1F5}"),
      ("중국", "\U{1F1E8}\U{1F1F3}"),
      ("호주", "\U{1F1E6}\U{1F1FA}"),
      ("캐나다", "\U{1F1E8}\U{1F1E6}"),
      ("영국", "\U{1F1EC}\U{1F1E7}"),
      ("독일", "\U{1F1E9}\U{1F1EA}"),
      ("프랑스", "\U{1F1EB}\U{1F1F7}"),
      ("싱가포르", "\U{1F1F8}\U{1F1EC}"),
      ("홍콩", "\U{1F1ED}\U{1F1F0}"),
      ("대만", "\U{1F1F9}\U{1F1FC}"),
      ("태국", "\U{1F1F9}\U{1F1ED}"),
      ("베트남", "\U{1F1FB}\U{1F1F3}"),
      ("필리핀", "\U{1F1F5}\U{1F1ED}"),
      ("인도네시아", "\U{1F1EE}\U{1F1E9}"),
      ("말레이시아", "\U{1F1F2}\U{1F1FE}"),
      ("인도", "\U{1F1EE}\U{1F1F3}"),
      ("브라질", "\U{1F1E7}\U{1F1F7}"),
      ("멕시코", "\U{1F1F2}\U{1F1FD}"),
      ("대한민국", "\U{1F1F0}\U{1F1F7}")
    ]

  /** Keys that start with an ASCII character, as every key of the name
      tables does. */
  ghost predicate AsciiKeys(t: Entries)
  {
    forall i :: 0 <= i < |t| ==> |t[i].0| > 0 && t[i].0[0] < '\U{80}'
  }

  /** Names that start with a Hangul syllable, as every name does. */
  ghost predicate HangulNames(t: Entries)
  {
    forall i :: 0 <= i < |t| ==> |t[i].1| > 0 && t[i].1[0] >= '가'
  }

  ghost predicate Shaped(t: Entries)
  {
    AsciiKeys(t) && HangulNames(t)
  }

  lemma ConcatShaped(a: Entries, b: Entries)
    requires Shaped(a) && Shaped(b)
    ensures Shaped(a + b)
  {
  }

  /** The concatenation of the city groups, one group at a time. */
  lemma ConcatOfGroups(m0: Entries, m1: Entries, m2: Entries, m3: Entries, m4: Entries,
      m5: Entries, m6: Entries, m7: Entries, m8: Entries, m9: Entries,
      m10: Entries, m11: Entries, m12: Entries)
    requires Shaped(m0) && Shaped(m1) && Shaped(m2) && Shaped(m3) && Shaped(m4) && Shaped(m5) && Shaped(m6) && Shaped(m7) && Shaped(m8) && Shaped(m9) && Shaped(m10) && Shaped(m11) && Shaped(m12)
    ensures Shaped(m0 + m1 + m2 + m3 + m4 + m5 + m6 + m7 + m8 + m9 + m10 + m11 + m12)
  {
    ConcatShaped(m0, m1);
    ConcatShaped(m0 + m1, m2);
    ConcatShaped(m0 + m1 + m2, m3);
    ConcatShaped(m0 + m1 + m2 + m3, m4);
    ConcatShaped(m0 + m1 + m2 + m3 + m4, m5);
    ConcatShaped(m0 + m1 + m2 + m3 + m4 + m5, m6);
    ConcatShaped(m0 + m1 + m2 + m3 + m4 + m5 + m6, m7);
    ConcatShaped(m0 + m1 + m2 + m3 + m4 + m5 + m6 + m7, m8);
    ConcatShaped(m0 + m1 + m2 + m3 + m4 + m5 + m6 + m7 + m8, m9);
    ConcatShaped(m0 + m1 + m2 + m3 + m4 + m5 + m6 + m7 + m8 + m9, m10);
    ConcatShaped(m0 + m1 + m2 + m3 + m4 + m5 + m6 + m7 + m8 + m9 + m10, m11);
    ConcatShaped(m0 + m1 + m2 + m3 + m4 + m5 + m6 + m7 + m8 + m9 + m10 + m11, m12);
  }

  lemma CountryNamesKeys()
    ensures AsciiKeys(CountryNames)
  {
  }

  lemma CountryNamesNames()
    ensures HangulNames(CountryNames)
  {
  }

  lemma MajorCitiesKeys()
    ensures AsciiKeys(MajorCities)
  {
  }

  lemma MajorCitiesNames()
    ensures HangulNames(MajorCities)
  {
  }

  lemma GyeonggiCitiesKeys()
    ensures AsciiKeys(GyeonggiCities)
  {
  }

  lemma GyeonggiCitiesNames()
    ensures HangulNames(GyeonggiCities)
  {
  }

  lemma GangwonCitiesKeys()
    ensures AsciiKeys(GangwonCities)
  {
  }

  lemma GangwonCitiesNames()
    ensures HangulNames(GangwonCities)
  {
  }

  lemma NorthChungcheongCitiesKeys()
    ensures AsciiKeys(NorthChungcheongCities)
  {
  }

  lemma NorthChungcheongCitiesNames()
    ensures HangulNames(NorthChungcheongCities)
  {
  }

  lemma SouthChungcheongCitiesKeys()
    ensures AsciiKeys(SouthChungcheongCities)
  {
  }

  lemma SouthChungcheongCitiesNames()
    ensures HangulNames(SouthChungcheongCities)
  {
  }

  lemma NorthJeollaCitiesKeys()
    ensures AsciiKeys(NorthJeollaCities)
  {
  }

  lemma NorthJeollaCitiesNames()
    ensures HangulNames(NorthJeollaCities)
  {
  }

  lemma SouthJeollaCitiesKeys()
    ensures AsciiKeys(SouthJeollaCities)
  {
  }

  lemma SouthJeollaCitiesNames()
    ensures HangulNames(SouthJeollaCities)
  {
  }

  lemma NorthGyeongsangCitiesKeys()
    ensures AsciiKeys(NorthGyeongsangCities)
  {
  }

  lemma NorthGyeongsangCitiesNames()
    ensures HangulNames(NorthGyeongsangCities)
  {
  }

  lemma SouthGyeongsangCitiesKeys()
    ensures AsciiKeys(SouthGyeongsangCities)
  {
  }

  lemma SouthGyeongsangCitiesNames()
    ensures HangulNames(SouthGyeongsangCities)
  {
  }

  lemma JejuCitiesKeys()
    ensures AsciiKeys(JejuCities)
  {
  }

  lemma JejuCitiesNames()
    ensures HangulNames(JejuCities)
  {
  }

  lemma CountiesKeys()
    ensures AsciiKeys(Counties)
  {
  }

  lemma CountiesNames()
    ensures HangulNames(Counties)
  {
  }

  lemma ForeignCitiesKeys()
    ensures AsciiKeys(ForeignCities)
  {
  }

  lemma ForeignCitiesNames()
    ensures HangulNames(ForeignCities)
  {
  }

  lemma OtherCitiesKeys()
    ensures AsciiKeys(OtherCities)
  {
  }

  lemma OtherCitiesNames()
    ensures HangulNames(OtherCities)
  {
  }

  lemma CityNamesShape()
    ensures Shaped(CityNames)
  {
    MajorCitiesKeys();
    MajorCitiesNames();
    GyeonggiCitiesKeys();
    GyeonggiCitiesNames();
    GangwonCitiesKeys();
    GangwonCitiesNames();
    NorthChungcheongCitiesKeys();
    NorthChungcheongCitiesNames();
    SouthChungcheongCitiesKeys();
    SouthChungcheongCitiesNames();
    NorthJeollaCitiesKeys();
    NorthJeollaCitiesNames();
    SouthJeollaCitiesKeys();
    SouthJeollaCitiesNames();
    NorthGyeongsangCitiesKeys();
    NorthGyeongsangCitiesNames();
    SouthGyeongsangCitiesKeys();
    SouthGyeongsangCitiesNames();
    JejuCitiesKeys();
    JejuCitiesNames();
    CountiesKeys();
    CountiesNames();
    ForeignCitiesKeys();
    ForeignCitiesNames();
    OtherCitiesKeys();
    OtherCitiesNames();
    ConcatOfGroups(MajorCities, GyeonggiCities, GangwonCities, NorthChungcheongCities,
      SouthChungcheongCities, NorthJeollaCities, SouthJeollaCities, NorthGyeongsangCities,
      SouthGyeongsangCities, JejuCities, Counties, ForeignCities,
      OtherCities);
  }

  lemma CountryNamesShape()
    ensures Shaped(CountryNames)
  {
    CountryNamesKeys();
    CountryNamesNames();
  }

  /** In a shaped table a name is never empty. */
  lemma NonEmptyAt(t: Entries, key: string)
    requires HangulNames(t) && Lookup(t, key).Some?
    ensures Lookup(t, key).value != ""
  {
  }

  /** In a shaped table no name is a key: a name starts with a Hangul
      syllable, every key with an ASCII character. */
  lemma NotKeyAt(t: Entries, name: string)
    requires AsciiKeys(t) && |name| > 0 && name[0] >= '가'
    ensures !HasKey(t, name)
  {
  }

  /** The names of the two catch-all rows of the provider. */
  const Other := "기타"
  const NotSet := "미확인"

  /** What `getKoreanLocationName` returns; flag is undefined when the
      Korean country name has no flag. */
  datatype KoreanLocation = KoreanLocation(cityKo: string, countryKo: string, flag: Option<string>)

  /** `table[key] || key`: the table's name, unless it has none (or an
      empty one), in which case the key itself. */
  function NameOr(table: Entries, key: string): (r: string)
    ensures HasKey(table, key) && Lookup(table, key).value != "" ==> (key, r) in table
    ensures !HasKey(table, key) ==> r == key
  {
    match Lookup(table, key)
    case Some(name) => if name != "" then name else key
    case None => key
  }

  /** No table holds an empty name, so `||` falls back only for a name the
      table lacks. */
  lemma CountryNameNonEmpty(country: string)
    ensures HasKey(CountryNames, country) ==> Lookup(CountryNames, country).value != ""
  {
    if HasKey(CountryNames, country) {
      CountryNamesShape();
      NonEmptyAt(CountryNames, country);
    }
  }

  lemma CityNameNonEmpty(city: string)
    ensures HasKey(CityNames, city) ==> Lookup(CityNames, city).value != ""
  {
    if HasKey(CityNames, city) {
      CityNamesShape();
      NonEmptyAt(CityNames, city);
    }
  }

  /** The country half of `getKoreanLocationName`: the Korean country name
      and the flag listed for it. */
  function KoreanCountry(country: string): (r: (string, Option<string>))
    ensures HasKey(CountryNames, country) ==> (country, r.0) in CountryNames
    ensures !HasKey(CountryNames, country) ==> r.0 == country
    ensures r.1.Some? <==> HasKey(CountryFlags, r.0)
    ensures r.1.Some? ==> (r.0, r.1.value) in CountryFlags
  {
    CountryNameNonEmpty(country);
    var countryKo := NameOr(CountryNames, country);
    (countryKo, Lookup(CountryFlags, countryKo))
  }

  /** `getKoreanLocationName(city, country)`: each name is the table's name
      for it when its table lists it and the name itself otherwise; the
      flag is the one listed for the Korean country name, and there is one
      exactly when that name is listed. */
  function GetKoreanLocationName(city: string, country: string): (r: KoreanLocation)
    ensures HasKey(CountryNames, country) ==> (country, r.countryKo) in CountryNames
    ensures !HasKey(CountryNames, country) ==> r.countryKo == country
    ensures HasKey(CityNames, city) ==> (city, r.cityKo) in CityNames
    ensures !HasKey(CityNames, city) ==> r.cityKo == city
    ensures r.flag.Some? <==> HasKey(CountryFlags, r.countryKo)
    ensures r.flag.Some? ==> (r.countryKo, r.flag.value) in CountryFlags
  {
    CityNameNonEmpty(city);
    var country := KoreanCountry(country);
    KoreanLocation(NameOr(CityNames, city), country.0, country.1)
  }

  /** The flags follow the countries in order, the first country's flag
      coming last. */
  lemma FlagsFollowCountries()
    ensures forall i :: 0 <= i < 20 ==> CountryFlags[if i == 0 then 19 else i - 1].0 == CountryNames[i].1
  {
  }

  /** Every country the table names has a flag, except the two catch-all
      rows. */
  lemma CountryHasFlag(country: string)
    requires HasKey(CountryNames, country)
    requires Lookup(CountryNames, country).value != Other && Lookup(CountryNames, country).value != NotSet
    ensures HasKey(CountryFlags, Lookup(CountryNames, country).value)
  {
    var ko := Lookup(CountryNames, country).value;
    var i :| 0 <= i < |CountryNames| && CountryNames[i] == (country, ko);
    assert CountryNames[20].1 == Other && CountryNames[21].1 == NotSet;
    FlagsFollowCountries();
    var j := if i == 0 then 19 else i - 1;
    assert CountryFlags[j].0 == ko;
  }

  /** So a location in a named country always shows a flag. */
  lemma KnownCountryShowsFlag(city: string, country: string)
    requires HasKey(CountryNames, country)
    requires Lookup(CountryNames, country).value != Other && Lookup(CountryNames, country).value != NotSet
    ensures GetKoreanLocationName(city, country).flag.Some?
  {
    CountryNameNonEmpty(country);
    CountryHasFlag(country);
  }

  lemma CatchAllCountries()
    ensures Lookup(CountryNames, "(other)") == Some(Other)
    ensures Lookup(CountryNames, "(not set)") == Some(NotSet)
  {
  }

  lemma CatchAllCities()
    ensures Lookup(CityNames, "(other)") == Some(Other)
    ensures Lookup(CityNames, "(not set)") == Some(NotSet)
  {
    LookupConcat(NamedCities, OtherCities, "(other)");
    LookupConcat(NamedCities, OtherCities, "(not set)");
  }

  lemma CatchAllFlags()
    ensures !HasKey(CountryFlags, Other) && !HasKey(CountryFlags, NotSet)
  {
  }

  /** '(other)' and '(not set)' read as 기타 and 미확인 in both tables,
      and neither shows a flag. */
  lemma CatchAllRows(city: string)
    ensures GetKoreanLocationName(city, "(other)").countryKo == Other
    ensures GetKoreanLocationName(city, "(not set)").countryKo == NotSet
    ensures GetKoreanLocationName("(other)", "(other)") == KoreanLocation(Other, Other, None)
    ensures GetKoreanLocationName("(not set)", "(not set)") == KoreanLocation(NotSet, NotSet, None)
  {
    CatchAllCountries();
    CatchAllCities();
    CatchAllFlags();
  }

  /** No Korean name is itself a key of its table. */
  lemma NamesAreNotKeys(city: string, country: string)
    ensures var r := GetKoreanLocationName(city, country);
      !HasKey(CountryNames, r.countryKo) && !HasKey(CityNames, r.cityKo)
  {
    var r := GetKoreanLocationName(city, country);
    CountryNamesShape();
    CityNamesShape();
    CountryNameNonEmpty(country);
    CityNameNonEmpty(city);
    if HasKey(CountryNames, country) {
      NotKeyAt(CountryNames, r.countryKo);
    }
    if HasKey(CityNames, city) {
      NotKeyAt(CityNames, r.cityKo);
    }
  }

  /** So looking up the names a lookup returned gives them back: the names
      of a card are stable under a second translation. */
  lemma LookupIdempotent(city: string, country: string)
    ensures var r := GetKoreanLocationName(city, country);
      GetKoreanLocationName(r.cityKo, r.countryKo) == r
  {
    NamesAreNotKeys(city, country);
  }
}
