/** `GET /api/analytics/character-rankings`: the ten active characters with
    the highest mean payment ratio, each with its latest performance record.

    The two Supabase reads are inputs: the roster of active characters and
    the performance records, either from the `DISTINCT ON` query or, when
    that endpoint refuses, from the plain history ordered newest first, in
    which case the first record seen per character is kept. Ratios and
    rates are compared only, so they are modelled as integers. */
module RankingsRoute {
  import opened Wrappers
  import opened Seqs

  datatype Character = Character(id: string, name: string, profileImg: string)

  /** A row of `arimate_character_performance_history`; a NULL metric is
      None. */
  datatype Performance = Performance(
    character: string,
    meanPaymentRatio: Option<int>,
    reviewCount: Option<int>,
    avgStoryRating: Option<int>,
    avgArtRating: Option<int>,
    playCount: Option<int>,
    completionRate: Option<int>,
    dropoutRate: Option<int>,
    createdAt: string)

  /** The seven metrics a ranked character carries. */
  datatype Metrics = Metrics(
    meanPaymentRatio: int,
    reviewCount: int,
    avgStoryRating: int,
    avgArtRating: int,
    playCount: int,
    completionRate: int,
    dropoutRate: int)

  /** A roster character joined with its metrics. */
  datatype Entry = Entry(character: Character, metrics: Metrics)

  /** An entry of the response. */
  datatype RankedCharacter = RankedCharacter(character: Character, metrics: Metrics, rank: nat)

  datatype Response = Rankings(rankings: seq<RankedCharacter>) | Failed(error: string)

  const RankingsFailed := "Failed to fetch character rankings"
  const TopCount := 10

  function CharacterOf(p: Performance): string { p.character }

  /** The characters that have a record. */
  function CharactersOf(s: seq<Performance>): set<string>
  {
    set i | 0 <= i < |s| :: s[i].character
  }

  lemma CharactersOfSnoc(s: seq<Performance>, p: Performance)
    ensures CharactersOf(s + [p]) == CharactersOf(s) + {p.character}
  {
    var t := s + [p];
    forall c | c in CharactersOf(t) ensures c in CharactersOf(s) + {p.character} {
      var i :| 0 <= i < |t| && t[i].character == c;
      if i < |s| { assert s[i] == t[i]; }
    }
    forall c | c in CharactersOf(s) ensures c in CharactersOf(t) {
      var i :| 0 <= i < |s| && s[i].character == c;
      assert t[i] == s[i];
    }
    assert t[|s|] == p;
  }

  // ----- the latest record per character -----------------------------------

  /** `records.find(p => p.character === id)`: the first record of a
      character. */
  function FindFor(records: seq<Performance>, id: string): (r: Option<Performance>)
    ensures r.Some? <==> id in CharactersOf(records)
    ensures r.Some? ==> r.value in records && r.value.character == id
  {
    if records == [] then None
    else if records[0].character == id then Some(records[0])
    else
      var rest := FindFor(records[1..], id);
      assert id in CharactersOf(records) <==> id in CharactersOf(records[1..]) by {
        if id in CharactersOf(records) {
          var i :| 0 <= i < |records| && records[i].character == id;
          assert records[1..][i - 1] == records[i];
        }
        if id in CharactersOf(records[1..]) {
          var i :| 0 <= i < |records[1..]| && records[1..][i].character == id;
          assert records[i + 1] == records[1..][i];
        }
      }
      rest
  }

  /** Where the record `find` returns sits: before it no record has the
      character. */
  lemma {:induction false} FindForIndex(records: seq<Performance>, id: string) returns (i: nat)
    requires FindFor(records, id).Some?
    ensures i < |records| && records[i] == FindFor(records, id).value
    ensures forall j :: 0 <= j < i ==> records[j].character != id
  {
    if records[0].character == id {
      i := 0;
    } else {
      var k := FindForIndex(records[1..], id);
      i := k + 1;
    }
  }

  /** `find` over one more record only looks at it when nothing earlier
      matched. */
  lemma {:induction false} FindForSnoc(s: seq<Performance>, p: Performance, id: string)
    ensures FindFor(s + [p], id) ==
              if FindFor(s, id).Some? then FindFor(s, id)
              else if p.character == id then Some(p)
              else None
  {
    if s == [] {
      assert [p][1..] == [];
    } else {
      assert (s + [p])[1..] == s[1..] + [p];
      FindForSnoc(s[1..], p, id);
    }
  }

  /** The `forEach` of the fallback, from the left: a record is put in the
      `Map` only when its character has none yet. `Map` keeps insertion
      order, so `Array.from(map.values())` lists the kept records by first
      appearance. */
  function FirstPerCharacter(records: seq<Performance>): seq<Performance>
  {
    if records == [] then []
    else
      var kept := FirstPerCharacter(records[..|records| - 1]);
      var record := records[|records| - 1];
      if record.character in CharactersOf(kept) then kept else kept + [record]
  }

  /** The fallback loop: a set of the characters seen and the kept
      records, in order. */
  method LatestPerCharacter(records: seq<Performance>) returns (latest: seq<Performance>)
    ensures latest == FirstPerCharacter(records)
  {
    var seen: set<string> := {};
    latest := [];
    var i := 0;
    while i < |records|
      invariant 0 <= i <= |records|
      invariant latest == FirstPerCharacter(records[..i])
      invariant seen == CharactersOf(latest)
    {
      assert records[..i + 1][..i] == records[..i];
      if records[i].character !in seen {
        CharactersOfSnoc(latest, records[i]);
        seen := seen + {records[i].character};
        latest := latest + [records[i]];
      }
      i := i + 1;
    }
    assert records[..i] == records;
  }

  /** The kept records cover every character once. */
  lemma {:induction false} FirstPerCharacterKeys(records: seq<Performance>)
    ensures KeysDistinct(FirstPerCharacter(records), CharacterOf)
    ensures CharactersOf(FirstPerCharacter(records)) == CharactersOf(records)
  {
    if records != [] {
      var init := records[..|records| - 1];
      var record := records[|records| - 1];
      var kept := FirstPerCharacter(init);
      FirstPerCharacterKeys(init);
      CharactersOfSnoc(init, record);
      assert records == init + [record];
      if record.character !in CharactersOf(kept) {
        CharactersOfSnoc(kept, record);
        var r := kept + [record];
        forall i, j | 0 <= i < j < |r| ensures CharacterOf(r[i]) != CharacterOf(r[j]) {
          if j == |kept| {
            assert r[i] == kept[i];
          } else {
            assert r[i] == kept[i] && r[j] == kept[j];
          }
        }
      }
    }
  }

  /** The record kept for a character is the first record of it. */
  lemma {:induction false} FirstPerCharacterFinds(records: seq<Performance>, id: string)
    ensures FindFor(FirstPerCharacter(records), id) == FindFor(records, id)
  {
    if records != [] {
      var init := records[..|records| - 1];
      var record := records[|records| - 1];
      var kept := FirstPerCharacter(init);
      FirstPerCharacterFinds(init, id);
      FirstPerCharacterKeys(init);
      assert records == init + [record];
      FindForSnoc(init, record, id);
      if record.character !in CharactersOf(kept) {
        FindForSnoc(kept, record, id);
      }
    }
  }

  /** `order=created_at.desc`: ISO timestamps, later first. */
  predicate NewestFirst(a: Performance, b: Performance)
  {
    LexLe(b.createdAt, a.createdAt)
  }

  /** With the history newest first, the record kept for a character is
      as recent as any other record of that character. */
  lemma NewestKept(records: seq<Performance>, id: string)
    requires SortedBy(NewestFirst, records)
    requires FindFor(FirstPerCharacter(records), id).Some?
    ensures var p := FindFor(FirstPerCharacter(records), id).value;
      p in records && p.character == id &&
      forall q :: q in records && q.character == id ==> LexLe(q.createdAt, p.createdAt)
  {
    FirstPerCharacterFinds(records, id);
    var p := FindFor(records, id).value;
    var i := FindForIndex(records, id);
    forall q | q in records && q.character == id ensures LexLe(q.createdAt, p.createdAt) {
      var j :| 0 <= j < |records| && records[j] == q;
      if j == i {
        LexLeTotal(p.createdAt, p.createdAt);
      } else {
        assert NewestFirst(records[i], records[j]);
      }
    }
  }

  // ----- the ranking -------------------------------------------------------

  /** `performance?.x || 0` for each metric: a character without a record,
      or a NULL metric, counts 0. */
  function MetricsOf(p: Option<Performance>): (m: Metrics)
    ensures p.None? ==> m == Metrics(0, 0, 0, 0, 0, 0, 0)
    ensures p.Some? ==>
              && m.meanPaymentRatio == p.value.meanPaymentRatio.GetOr(0)
              && m.reviewCount == p.value.reviewCount.GetOr(0)
              && m.avgStoryRating == p.value.avgStoryRating.GetOr(0)
              && m.avgArtRating == p.value.avgArtRating.GetOr(0)
              && m.playCount == p.value.playCount.GetOr(0)
              && m.completionRate == p.value.completionRate.GetOr(0)
              && m.dropoutRate == p.value.dropoutRate.GetOr(0)
  {
    match p
    case None => Metrics(0, 0, 0, 0, 0, 0, 0)
    case Some(v) =>
      Metrics(
        v.meanPaymentRatio.GetOr(0), v.reviewCount.GetOr(0), v.avgStoryRating.GetOr(0),
        v.avgArtRating.GetOr(0), v.playCount.GetOr(0), v.completionRate.GetOr(0), v.dropoutRate.GetOr(0))
  }

  /** `characters.map(...)`: each roster character with its first record's
      metrics. */
  function Joined(roster: seq<Character>, performance: seq<Performance>): (r: seq<Entry>)
    ensures |r| == |roster|
    ensures forall i :: 0 <= i < |r| ==>
              r[i] == Entry(roster[i], MetricsOf(FindFor(performance, roster[i].id)))
  {
    Map(roster, (c: Character) => Entry(c, MetricsOf(FindFor(performance, c.id))))
  }

  /** The filter: only characters with payment data. */
  predicate Paying(e: Entry)
  {
    e.metrics.meanPaymentRatio > 0
  }

  /** The comparator `b.mean_payment_ratio - a.mean_payment_ratio`. */
  predicate ByRatioDesc(a: Entry, b: Entry)
  {
    a.metrics.meanPaymentRatio >= b.metrics.meanPaymentRatio
  }

  lemma ByRatioDescIsPreorder()
    ensures TotalPreorder(ByRatioDesc)
  {
  }

  /** The paying entries, highest ratio first. */
  function Paid(entries: seq<Entry>): (s: seq<Entry>)
    ensures multiset(s) == multiset(Filter(entries, Paying))
    ensures SortedBy(ByRatioDesc, s)
    ensures forall e :: e in s <==> e in entries && Paying(e)
  {
    var kept := Filter(entries, Paying);
    var s := Sort(kept, ByRatioDesc);
    assert SortedBy(ByRatioDesc, s) by {
      ByRatioDescIsPreorder();
      SortSorted(kept, ByRatioDesc);
    }
    assert forall e :: e in s <==> e in entries && Paying(e) by {
      forall e ensures e in s <==> e in entries && Paying(e) {
        SortMembers(kept, ByRatioDesc, e);
        FilterMembers(entries, Paying, e);
      }
    }
    s
  }

  /** `.filter(...).sort(...).slice(0, 10)`: at most ten paying entries,
      highest ratio first. */
  function Top(entries: seq<Entry>): (t: seq<Entry>)
    ensures |t| <= TopCount
    ensures multiset(t) <= multiset(entries)
    ensures forall i :: 0 <= i < |t| ==> Paying(t[i]) && t[i] in entries
    ensures SortedBy(ByRatioDesc, t)
  {
    var paid := Paid(entries);
    var t := Take(paid, TopCount);
    assert multiset(t) <= multiset(paid) by {
      assert paid == t + paid[|t|..];
    }
    assert forall i :: 0 <= i < |t| ==> Paying(t[i]) && t[i] in entries by {
      forall i | 0 <= i < |t| ensures Paying(t[i]) && t[i] in entries {
        assert t[i] == paid[i];
      }
    }
    t
  }

  /** No paying entry is left out of the top unless ten entries, none with
      a lower ratio, are in. */
  lemma TopIsTop(entries: seq<Entry>, e: Entry)
    requires e in entries && Paying(e) && e !in Top(entries)
    ensures |Top(entries)| == TopCount
    ensures Top(entries)[TopCount - 1].metrics.meanPaymentRatio >= e.metrics.meanPaymentRatio
  {
    var paid := Paid(entries);
    var t := Top(entries);
    var j :| 0 <= j < |paid| && paid[j] == e;
    assert ByRatioDesc(paid[TopCount - 1], paid[j]) || j == TopCount - 1;
  }

  /** `rank: index + 1`. */
  function Numbered(top: seq<Entry>): (r: seq<RankedCharacter>)
    ensures |r| == |top|
    ensures forall i :: 0 <= i < |r| ==> EntryOf(r[i]) == top[i] && r[i].rank == i + 1
  {
    seq(|top|, i requires 0 <= i < |top| => RankedCharacter(top[i].character, top[i].metrics, i + 1))
  }

  /** The entry a ranked character came from. */
  function EntryOf(r: RankedCharacter): Entry
  {
    Entry(r.character, r.metrics)
  }

  /** The ranking of a roster against the performance records: the top
      entries of the joined roster, numbered from 1. */
  function Ranking(roster: seq<Character>, performance: seq<Performance>): (r: seq<RankedCharacter>)
    ensures |r| <= TopCount
    ensures forall i :: 0 <= i < |r| ==> r[i].rank == i + 1
  {
    Numbered(Top(Joined(roster, performance)))
  }

  /** The ranked characters all have payment data and come highest ratio
      first; stripped of their ranks they are the top entries. */
  lemma RankingOrdered(roster: seq<Character>, performance: seq<Performance>)
    ensures var r := Ranking(roster, performance);
      && (forall i :: 0 <= i < |r| ==> r[i].metrics.meanPaymentRatio > 0)
      && (forall i, j :: 0 <= i < j < |r| ==> r[i].metrics.meanPaymentRatio >= r[j].metrics.meanPaymentRatio)
      && Map(r, EntryOf) == Top(Joined(roster, performance))
  {
    var top := Top(Joined(roster, performance));
    var r := Numbered(top);
    forall i | 0 <= i < |r| ensures r[i].metrics.meanPaymentRatio > 0 {
      assert EntryOf(r[i]) == top[i];
    }
    NumberedSorted(top);
    NumberedEntries(top);
  }

  lemma NumberedSorted(top: seq<Entry>)
    requires SortedBy(ByRatioDesc, top)
    ensures var r := Numbered(top);
      forall i, j :: 0 <= i < j < |r| ==> r[i].metrics.meanPaymentRatio >= r[j].metrics.meanPaymentRatio
  {
    var r := Numbered(top);
    forall i, j | 0 <= i < j < |r| ensures r[i].metrics.meanPaymentRatio >= r[j].metrics.meanPaymentRatio {
      assert ByRatioDesc(top[i], top[j]);
      assert EntryOf(r[i]) == top[i] && EntryOf(r[j]) == top[j];
    }
  }

  lemma NumberedEntries(top: seq<Entry>)
    ensures Map(Numbered(top), EntryOf) == top
  {
    var r := Numbered(top);
    assert |Map(r, EntryOf)| == |top|;
  }

  /** Every ranked character is a roster character with its own metrics,
      and the ranked entries are a sub-multiset of the joined roster, so
      no roster entry is ranked twice. */
  lemma RankingFromRoster(roster: seq<Character>, performance: seq<Performance>)
    ensures var r := Ranking(roster, performance);
      && |r| <= |roster|
      && (forall i :: 0 <= i < |r| ==>
            r[i].character in roster && r[i].metrics == MetricsOf(FindFor(performance, r[i].character.id)))
      && multiset(Map(r, EntryOf)) <= multiset(Joined(roster, performance))
  {
    var joined := Joined(roster, performance);
    var top := Top(joined);
    var r := Ranking(roster, performance);
    NumberedEntries(top);
    forall i | 0 <= i < |r|
      ensures r[i].character in roster && r[i].metrics == MetricsOf(FindFor(performance, r[i].character.id))
    {
      assert EntryOf(r[i]) == top[i];
      var k :| 0 <= k < |joined| && joined[k] == top[i];
    }
  }

  /** The ranking is a top ten: a paying character left out only when ten
      others are in, none of them with a lower ratio. */
  lemma RankingIsTop(roster: seq<Character>, performance: seq<Performance>, e: Entry)
    requires e in Joined(roster, performance) && Paying(e)
    requires e !in Map(Ranking(roster, performance), EntryOf)
    ensures var r := Ranking(roster, performance);
      |r| == TopCount && r[TopCount - 1].metrics.meanPaymentRatio >= e.metrics.meanPaymentRatio
  {
    TopIsTop(Joined(roster, performance), e);
  }


  // ----- the handler -------------------------------------------------------

  /** What the handler answers, given the two reads: credentials, the
      roster, then the performance records from the query or, failing
      that, from the history. Every error becomes the one 500 answer. */
  function RankingsResponse(projectUrl: string, anonKey: string, characters: Result<seq<Character>>,
                            query: Result<seq<Performance>>, history: Result<seq<Performance>>)
    : (r: Response)
    ensures projectUrl == "" || anonKey == "" || characters.Err? ==> r == Failed(RankingsFailed)
    ensures projectUrl != "" && anonKey != "" && characters == Ok([]) ==> r == Rankings([])
    ensures r.Rankings? && query.Ok? ==> r.rankings == Ranking(characters.value, query.value)
    ensures r.Rankings? && query.Err? && characters.value != [] ==>
              history.Ok? && r.rankings == Ranking(characters.value, FirstPerCharacter(history.value))
    ensures (projectUrl != "" && anonKey != "" && characters.Ok? && characters.value != []
             && (query.Ok? || history.Ok?)) ==> r.Rankings?
    ensures query.Err? && history.Err? && characters.Ok? && characters.value != [] ==>
              r == Failed(RankingsFailed)
    ensures query.Err? && history.Err? ==> r.Failed? || r == Rankings([])
  {
    if projectUrl == "" || anonKey == "" then Failed(RankingsFailed)
    else match characters
      case Err(_) => Failed(RankingsFailed)
      case Ok(roster) =>
        if |roster| == 0 then Rankings([])
        else match query
          case Ok(performance) => Rankings(Ranking(roster, performance))
          case Err(_) =>
            match history
            case Err(_) => Failed(RankingsFailed)
            case Ok(records) => Rankings(Ranking(roster, FirstPerCharacter(records)))
  }

  /** `GET`: the handler, with the fallback's loop. */
  method Get(projectUrl: string, anonKey: string, characters: Result<seq<Character>>,
             query: Result<seq<Performance>>, history: Result<seq<Performance>>)
    returns (r: Response)
    ensures r == RankingsResponse(projectUrl, anonKey, characters, query, history)
  {
    if projectUrl == "" || anonKey == "" {
      return Failed(RankingsFailed);
    }
    if characters.Err? {
      return Failed(RankingsFailed);
    }
    var roster := characters.value;
    if |roster| == 0 {
      return Rankings([]);
    }
    var performance: seq<Performance>;
    if query.Ok? {
      performance := query.value;
    } else {
      if history.Err? {
        return Failed(RankingsFailed);
      }
      performance := LatestPerCharacter(history.value);
    }
    return Rankings(Ranking(roster, performance));
  }
}
