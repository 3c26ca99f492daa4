/** The historical backfill of `gnoticias/ex_gnoticias_historico.py`: for
    each configured candidate, one Google News query per day of a fixed date
    range; an item is kept when its headline contains one of the candidate's
    keywords, and stored in `gnoticias`. Days are counted from 1970-01-01;
    the feed of each candidate and day is given as a value. */
module HistoricalNews {
  import opened Text
  import opened Calendar
  import opened Feed
  import opened NewsDb
  import opened RunLedger

  // ---------------------------------------------------------------------------
  // normalize_text
  // ---------------------------------------------------------------------------

  /** What `lower()`, NFD decomposition and `encode('ascii', 'ignore')` leave
      of one character: ASCII stays (upper case lowered), an accented Latin-1
      letter leaves its base letter, every other character disappears. */
  function FoldChar(c: char): string {
    if 'A' <= c <= 'Z' then [LowerAscii(c)]
    else if c <= '\U{7F}' then [c]
    else if Deaccent(c).Some? then [Deaccent(c).value]
    else []
  }

  function Fold(s: string): string {
    if s == [] then [] else FoldChar(s[0]) + Fold(s[1..])
  }

  /** `normalize_text` of the historical script: ASCII lower case, every
      character outside `[a-z0-9]` a separator, words joined by single
      spaces. Unlike the daily normaliser, characters that do not fold to
      ASCII vanish instead of separating. */
  function NormalizeText(text: string): (r: string)
    ensures IsNormalized(r)
    ensures text == "" ==> r == ""
  {
    Squeeze(Fold(text))
  }

  /** Folding changes nothing in a text made of `[a-z0-9 ]`. */
  lemma {:induction false} FoldKeepsPlainText(t: string)
    requires forall k :: 0 <= k < |t| ==> IsWordChar(t[k]) || t[k] == ' '
    ensures Fold(t) == t
  {
    if t != [] {
      FoldKeepsPlainText(t[1..]);
      assert FoldChar(t[0]) == [t[0]];
    }
  }

  /** Normalising twice is normalising once. */
  lemma NormalizeTextIdempotent(text: string)
    ensures NormalizeText(NormalizeText(text)) == NormalizeText(text)
  {
    var t := NormalizeText(text);
    FoldKeepsPlainText(t);
    SqueezeNormalized(t);
  }

  // ---------------------------------------------------------------------------
  // Keyword relevance
  // ---------------------------------------------------------------------------

  /** `[k.strip() for k in keywords.split(',')]`. */
  function KeywordList(keywords: string): seq<string> {
    var fields := SplitOn(keywords, ',');
    seq(|fields|, i requires 0 <= i < |fields| => Strip(fields[i]))
  }

  /** A headline is relevant when some normalised keyword is a substring of
      the normalised headline. */
  predicate Relevant(keywords: string, noticia: string) {
    AnyKeywordIn(NormalizeText(noticia), KeywordList(keywords))
  }

  /** Some keyword of `kws` is found in the normalised headline `t`. */
  predicate AnyKeywordIn(t: string, kws: seq<string>) {
    exists i :: 0 <= i < |kws| && KeywordIn(t, kws[i])
  }

  /** `normalize_text(keyword) in normalized_noticia`. */
  predicate KeywordIn(t: string, keyword: string) {
    Contains(t, NormalizeText(keyword))
  }

  /** The keyword loop of `fetch_news_for_candidate_historico`: stops at the
      first keyword found in the headline. */
  method EsRelevante(keywords: string, noticia: string) returns (esRelevante: bool)
    ensures esRelevante <==> Relevant(keywords, noticia)
  {
    var keywordList := KeywordList(keywords);
    var normalizedNoticia := NormalizeText(noticia);
    var i := 0;
    while i < |keywordList|
      invariant 0 <= i <= |keywordList|
      invariant !AnyKeywordIn(normalizedNoticia, keywordList[..i])
    {
      if KeywordIn(normalizedNoticia, keywordList[i]) {
        return true;
      }
      NoneFoundExtends(normalizedNoticia, keywordList, i);
      i := i + 1;
    }
    assert keywordList[..i] == keywordList;
    return false;
  }

  /** A keyword that is not found leaves the prefix searched so far without
      a match. */
  lemma NoneFoundExtends(t: string, kws: seq<string>, i: nat)
    requires i < |kws| && !AnyKeywordIn(t, kws[..i]) && !KeywordIn(t, kws[i])
    ensures !AnyKeywordIn(t, kws[..i + 1])
  {
    var prefix, longer := kws[..i], kws[..i + 1];
    forall j | 0 <= j < i + 1
      ensures !KeywordIn(t, longer[j])
    {
      if j < i {
        assert longer[j] == prefix[j];
      }
    }
  }

  /** A keyword list ending in a comma has an empty last keyword, and the
      empty string is in every headline: every item is relevant. */
  lemma {:induction false} TrailingCommaMatchesEverything(keywords: string, noticia: string)
    requires keywords != [] && keywords[|keywords| - 1] == ','
    ensures Relevant(keywords, noticia)
  {
    var fields := SplitOn(keywords, ',');
    TrailingCommaFields(keywords);
    var last := |fields| - 1;
    StripOfEmpty(fields[last]);
    var kws := KeywordList(keywords);
    assert kws[last] == "";
    assert NormalizeText(kws[last]) == "";
    assert KeywordIn(NormalizeText(noticia), kws[last]);
  }

  /** A text ending in a comma splits into at least two fields, the last one
      empty. */
  lemma TrailingCommaFields(keywords: string)
    requires keywords != [] && keywords[|keywords| - 1] == ','
    ensures var fields := SplitOn(keywords, ','); |fields| >= 2 && fields[|fields| - 1] == ""
  {
    var n := |keywords|;
    assert keywords == keywords[..n - 1] + [','];
    SplitOnTrailing(keywords[..n - 1], ',');
  }

  lemma StripOfEmpty(s: string)
    requires s == ""
    ensures Strip(s) == ""
  {
    var r := Strip(s);
    var i :| OccursAt(s, r, i) && AllSpace(s[..i]) && AllSpace(s[i + |r|..]);
  }

  // ---------------------------------------------------------------------------
  // process_feed_entry
  // ---------------------------------------------------------------------------

  /** `process_feed_entry` of the historical script for the query day `day`.
      The date of the item is not read from the entry: it is midnight of the
      query day taken as UTC and told in Colombia, so 19:00 of the day
      before. A raising decoder is not caught here; an empty link gives
      None; the long id is the entry id when the entry has one, even an
      empty one, and the URL otherwise. */
  function ProcessFeedEntry(entry: FeedEntry, candidatoId: int, day: int, svc: Services)
    : (r: Outcome<Option<News>>)
    ensures var url := entry.link.GetOr("");
            r.Raised? <==> url != "" && svc.decode(url).DecoderRaised?
    ensures var url := entry.link.GetOr("");
            r == Returned(None) <==> url == "" || svc.decode(url) == DecodedUrl("")
    ensures r.Returned? && r.value.Some? ==>
              var n := r.value.value;
              var url := entry.link.value;
              && KeyOf(n) == NewsKey(svc.md5(n.idLargo), candidatoId)
              && n.idLargo == entry.id.GetOr(url)
              && (n.noticia, n.medio) == SplitTitle(entry.title.GetOr(""))
              && n.link != ""
              && n.link == (if svc.decode(url).DecodedUrl? then svc.decode(url).url else url)
              && n.fecha == QueryDayStamp(day)
              && (n.ano, n.mes, n.dia, n.hora, n.minuto)
                 == (n.fecha.year, n.fecha.month, n.fecha.day, n.fecha.hour, n.fecha.minute)
              && n.diaSem == Weekday(day - 1) && n.diaAno == YearDay(day - 1)
              && n.sourceHref == SourceHref(entry)
  {
    var titulo := entry.title.GetOr("");
    var (noticia, medio) := SplitTitle(titulo);
    var fecha := QueryDayStamp(day);
    var googleNewsUrl := entry.link.GetOr("");
    var decoded: Outcome<string> :=
      if googleNewsUrl == "" then Returned("")
      else match svc.decode(googleNewsUrl)
           case DecodedUrl(u) => Returned(u)
           case NoDecodedUrl => Returned(googleNewsUrl)
           case DecoderRaised(e) => Raised(e);
    match decoded
    case Raised(e) => Raised(e)
    case Returned(link) =>
      if link == "" then Returned(None)
      else
        var entryId := entry.id.GetOr(googleNewsUrl);
        Returned(Some(News(candidatoId, svc.md5(entryId), noticia, medio, fecha, SourceHref(entry),
                           fecha.year, fecha.month, fecha.day, fecha.hour, fecha.minute,
                           Weekday(day - 1), YearDay(day - 1), link, entryId)))
  }

  /** `fecha_local` of an item of query day `day`: midnight of that day read
      as UTC and told in Colombia, the wall clock of which is 19:00 of the day
      before. Its weekday and day of year are those of day `day - 1`. */
  function QueryDayStamp(day: int): (dt: DateTime)
    ensures (dt.year, dt.month, dt.day) == CivilFromDays(day - 1)
    ensures dt.hour == 19 && dt.minute == 0 && dt.second == 0
    ensures Instant(dt) == (day - 1) * SecondsPerDay + 19 * 3600
    ensures IsValidDateTime(dt) <==> 1 <= dt.year <= 9999
  {
    var fechaLocal := NormalizeToColombiaTime(Moment(day * SecondsPerDay, None));
    MidnightInColombia(day);
    FromSeconds(fechaLocal.wall)
  }

  // ---------------------------------------------------------------------------
  // fetch_news_for_candidate_historico
  // ---------------------------------------------------------------------------

  /** The candidate being backfilled, its keyword list and the services. */
  datatype HistContext = HistContext(candidatoId: int, keywords: Option<string>, svc: Services)

  /** `not keywords`: no keyword list, or an empty one. */
  predicate NoKeywords(ctx: HistContext) {
    ctx.keywords.GetOr("") == ""
  }

  /** What the day loop does with one entry. A raising decoder reaches the
      day's `except Exception`, which abandons the rest of that day's feed;
      an item is kept only when the candidate has keywords and the headline
      is relevant. */
  function EntryVerdict(e: FeedEntry, ctx: HistContext, day: int): (r: Verdict)
    ensures r.Stop? <==> ProcessFeedEntry(e, ctx.candidatoId, day, ctx.svc).Raised?
    ensures r.Keep? ==> && ProcessFeedEntry(e, ctx.candidatoId, day, ctx.svc) == Returned(Some(r.news))
                        && !NoKeywords(ctx) && Relevant(ctx.keywords.value, r.news.noticia)
                        && r.news.candidatoId == ctx.candidatoId && r.news.hora == 19
    ensures NoKeywords(ctx) ==> !r.Keep?
  {
    match ProcessFeedEntry(e, ctx.candidatoId, day, ctx.svc)
    case Raised(_) => Stop
    case Returned(None) => Skip
    case Returned(Some(n)) =>
      if NoKeywords(ctx) then Skip
      else if Relevant(ctx.keywords.value, n.noticia) then Keep(n)
      else Skip
  }

  /** The row `save_news_to_gnoticias` writes: no enrichment yet. */
  function Unenriched(n: News): Enriched {
    Enriched(n, None, None, None)
  }

  /** `gnoticias` after the entries of one day. */
  function DayRun(table: map<NewsKey, Enriched>, entries: seq<FeedEntry>, ctx: HistContext, day: int)
    : map<NewsKey, Enriched>
    decreases |entries|
  {
    if entries == [] then table
    else
      match EntryVerdict(entries[0], ctx, day)
      case Stop => table
      case Skip => DayRun(table, entries[1..], ctx, day)
      case Keep(n) => DayRun(InsertIfAbsent(table, KeyOf(n), Unenriched(n), false), entries[1..], ctx, day)
  }

  /** The entries of a day's feed; none when fetching or parsing it raised. */
  function FeedOf(feed: Outcome<seq<FeedEntry>>): seq<FeedEntry> {
    if feed.Returned? then feed.value else []
  }

  /** `gnoticias` after the days `d` to `end`, both included. */
  function HistRun(table: map<NewsKey, Enriched>, feeds: int -> Outcome<seq<FeedEntry>>, ctx: HistContext,
                   d: int, end: int): map<NewsKey, Enriched>
    decreases end - d + 1
  {
    if d > end then table
    else HistRun(DayRun(table, FeedOf(feeds(d)), ctx, d), feeds, ctx, d + 1, end)
  }

  /** The entry `e` of day `day` was kept as `n`. */
  predicate KeptOn(feeds: int -> Outcome<seq<FeedEntry>>, ctx: HistContext, day: int, n: News) {
    var entries := FeedOf(feeds(day));
    exists i :: 0 <= i < |entries| && EntryVerdict(entries[i], ctx, day) == Keep(n)
  }

  /** A day keeps every stored row and adds only rows of relevant items it
      kept, each without enrichment. */
  lemma {:induction false} DayRunSound(table: map<NewsKey, Enriched>, entries: seq<FeedEntry>,
                                       ctx: HistContext, day: int)
    ensures var r := DayRun(table, entries, ctx, day);
            && (forall k :: k in table ==> k in r && r[k] == table[k])
            && (forall k :: k in r && k !in table ==>
                  r[k] == Unenriched(r[k].news) && KeyOf(r[k].news) == k
                  && exists i :: 0 <= i < |entries| && EntryVerdict(entries[i], ctx, day) == Keep(r[k].news))
    decreases |entries|
  {
    if entries != [] {
      var rest := entries[1..];
      assert forall i :: 0 <= i < |rest| ==> rest[i] == entries[i + 1];
      match EntryVerdict(entries[0], ctx, day)
      case Stop =>
      case Skip =>
        DayRunSound(table, rest, ctx, day);
      case Keep(n) =>
        var t1 := InsertIfAbsent(table, KeyOf(n), Unenriched(n), false);
        DayRunSound(t1, rest, ctx, day);
        var r := DayRun(table, entries, ctx, day);
        forall k | k in r && k !in table
          ensures r[k] == Unenriched(r[k].news) && KeyOf(r[k].news) == k
          ensures exists i :: 0 <= i < |entries| && EntryVerdict(entries[i], ctx, day) == Keep(r[k].news)
        {
          if k in t1 {
            assert k == KeyOf(n) && r[k] == Unenriched(n);
            assert EntryVerdict(entries[0], ctx, day) == Keep(r[k].news);
          } else {
            var i :| 0 <= i < |rest| && EntryVerdict(rest[i], ctx, day) == Keep(r[k].news);
            assert EntryVerdict(entries[i + 1], ctx, day) == Keep(r[k].news);
          }
        }
    }
  }

  /** The backfill keeps every stored row; every row it adds is the
      unenriched row of an item kept on one of the days `d..end`, so a
      relevant headline of the candidate. */
  lemma {:induction false} HistRunSound(table: map<NewsKey, Enriched>, feeds: int -> Outcome<seq<FeedEntry>>,
                                        ctx: HistContext, d: int, end: int)
    ensures var r := HistRun(table, feeds, ctx, d, end);
            && (forall k :: k in table ==> k in r && r[k] == table[k])
            && (forall k :: k in r && k !in table ==>
                  r[k] == Unenriched(r[k].news) && KeyOf(r[k].news) == k
                  && exists day :: d <= day <= end && KeptOn(feeds, ctx, day, r[k].news))
    decreases end - d + 1
  {
    if d <= end {
      var t1 := DayRun(table, FeedOf(feeds(d)), ctx, d);
      DayRunSound(table, FeedOf(feeds(d)), ctx, d);
      HistRunSound(t1, feeds, ctx, d + 1, end);
      var r := HistRun(table, feeds, ctx, d, end);
      forall k | k in r && k !in table
        ensures exists day :: d <= day <= end && KeptOn(feeds, ctx, day, r[k].news)
      {
        if k in t1 {
          assert r[k] == t1[k];
          assert KeptOn(feeds, ctx, d, r[k].news);
        } else {
          var day :| d + 1 <= day <= end && KeptOn(feeds, ctx, day, r[k].news);
        }
      }
    }
  }

  /** A candidate without keywords gets no rows, whatever its feeds hold. */
  lemma {:induction false} NoKeywordsNoRows(table: map<NewsKey, Enriched>, feeds: int -> Outcome<seq<FeedEntry>>,
                                            ctx: HistContext, d: int, end: int)
    requires NoKeywords(ctx)
    ensures HistRun(table, feeds, ctx, d, end) == table
    decreases end - d + 1
  {
    if d <= end {
      NoKeywordsDayUnchanged(table, FeedOf(feeds(d)), ctx, d);
      NoKeywordsNoRows(table, feeds, ctx, d + 1, end);
    }
  }

  lemma {:induction false} NoKeywordsDayUnchanged(table: map<NewsKey, Enriched>, entries: seq<FeedEntry>,
                                                  ctx: HistContext, day: int)
    requires NoKeywords(ctx)
    ensures DayRun(table, entries, ctx, day) == table
    decreases |entries|
  {
    if entries != [] {
      NoKeywordsDayUnchanged(table, entries[1..], ctx, day);
    }
  }

  /** `fetch_news_for_candidate_historico`: one feed per day from
      `startDay` to `endDay`, then the candidate's `his` flag is set. `days`
      lists the days visited: each day of the range once, in increasing
      order, and none when the range is empty. */
  method FetchNewsForCandidateHistorico(store: Store, ctx: HistContext, feeds: int -> Outcome<seq<FeedEntry>>,
                                        startDay: int, endDay: int)
    returns (ghost days: seq<int>)
    modifies store
    ensures |days| == (if startDay <= endDay then endDay - startDay + 1 else 0)
    ensures forall i :: 0 <= i < |days| ==> days[i] == startDay + i
    ensures store.gnoticias == HistRun(old(store.gnoticias), feeds, ctx, startDay, endDay)
    ensures store.candidatos == MarkProcessed(old(store.candidatos), ctx.candidatoId, "his", false)
    ensures store.gnoticiasExHis == old(store.gnoticiasExHis) && store.gnoticiasEx == old(store.gnoticiasEx)
  {
    var currentDay := startDay;
    days := [];
    while currentDay <= endDay
      invariant startDay <= currentDay && |days| == currentDay - startDay
      invariant if startDay <= endDay then currentDay <= endDay + 1 else currentDay == startDay
      invariant forall i :: 0 <= i < |days| ==> days[i] == startDay + i
      invariant HistRun(store.gnoticias, feeds, ctx, currentDay, endDay)
                == HistRun(old(store.gnoticias), feeds, ctx, startDay, endDay)
      invariant store.candidatos == old(store.candidatos)
      invariant store.gnoticiasExHis == old(store.gnoticiasExHis) && store.gnoticiasEx == old(store.gnoticiasEx)
      decreases endDay - currentDay + 1
    {
      FetchDay(store, ctx, FeedOf(feeds(currentDay)), currentDay);
      days := days + [currentDay];
      currentDay := currentDay + 1;
    }
    store.MarcarCandidatoComoProcesado(ctx.candidatoId, "his", false);
  }

  /** The body of the day loop: the entries of one day's feed, until one
      raises. */
  method FetchDay(store: Store, ctx: HistContext, entries: seq<FeedEntry>, day: int)
    modifies store
    ensures store.gnoticias == DayRun(old(store.gnoticias), entries, ctx, day)
    ensures store.candidatos == old(store.candidatos)
    ensures store.gnoticiasExHis == old(store.gnoticiasExHis) && store.gnoticiasEx == old(store.gnoticiasEx)
  {
    var i := 0;
    while i < |entries|
      invariant 0 <= i <= |entries|
      invariant DayRun(store.gnoticias, entries[i..], ctx, day) == DayRun(old(store.gnoticias), entries, ctx, day)
      invariant store.candidatos == old(store.candidatos)
      invariant store.gnoticiasExHis == old(store.gnoticiasExHis) && store.gnoticiasEx == old(store.gnoticiasEx)
    {
      assert entries[i..][0] == entries[i] && entries[i..][1..] == entries[i + 1..];
      var stop := FetchEntry(store, ctx, entries[i], day);
      if stop {
        break;
      }
      i := i + 1;
    }
  }

  /** One entry of the day loop: skipped, saved unless already stored, or
      the end of the day's loop when it raises (`stop`). */
  method FetchEntry(store: Store, ctx: HistContext, entry: FeedEntry, day: int) returns (stop: bool)
    modifies store
    ensures stop <==> EntryVerdict(entry, ctx, day).Stop?
    ensures store.gnoticias == match EntryVerdict(entry, ctx, day)
                               case Keep(n) => InsertIfAbsent(old(store.gnoticias), KeyOf(n), Unenriched(n), false)
                               case _ => old(store.gnoticias)
    ensures store.candidatos == old(store.candidatos)
    ensures store.gnoticiasExHis == old(store.gnoticiasExHis) && store.gnoticiasEx == old(store.gnoticiasEx)
  {
    ghost var verdict := EntryVerdict(entry, ctx, day);
    var prelim := ProcessFeedEntry(entry, ctx.candidatoId, day, ctx.svc);
    if prelim.Raised? {
      assert verdict == Stop;
      return true;
    }
    if prelim.value.None? {
      assert verdict == Skip;
      return false;
    }
    var n := prelim.value.value;
    if ctx.keywords.None? || ctx.keywords.value == "" {
      assert verdict == Skip;
      return false;
    }
    var esRelevante := EsRelevante(ctx.keywords.value, n.noticia);
    if !esRelevante {
      assert verdict == Skip;
      return false;
    }
    assert verdict == Keep(n);
    var duplicada := store.NewsExistsInGnoticias(n.id, ctx.candidatoId, false);
    if duplicada {
      assert InsertIfAbsent(store.gnoticias, KeyOf(n), Unenriched(n), false) == store.gnoticias;
      return false;
    }
    store.SaveNewsToGnoticias(n, false);
    return false;
  }

  // ---------------------------------------------------------------------------
  // main
  // ---------------------------------------------------------------------------

  const HistoricalProcess: string := "ex_gnoticias_historico"

  /** `CANDIDATOS_IDS`. */
  const CandidatosIds: seq<int> := [76]

  /** `START_DATE` 2024-01-01 and `END_DATE` 2025-11-22, as day numbers. */
  const StartDay: int := 19723
  const EndDay: int := 20414

  /** The two day numbers are the configured dates. */
  lemma ConfiguredRange()
    ensures StartDay == DaysFromCivil(2024, 1, 1) && EndDay == DaysFromCivil(2025, 11, 22)
  {
  }

  /** `str(ids)` of a list of integers: `[76]`, `[1, 2]`. */
  function IdsToString(ids: seq<int>): (s: string)
    ensures |s| >= 2 && s[0] == '[' && s[|s| - 1] == ']'
  {
    "[" + IdsBody(ids) + "]"
  }

  /** The numerals of the ids joined by `", "`. */
  function IdsBody(ids: seq<int>): string {
    ListBody(Numerals(ids))
  }

  /** `str(x)` of each id, in order. */
  function Numerals(ids: seq<int>): (r: seq<string>)
    ensures |r| == |ids| && forall i :: 0 <= i < |ids| ==> r[i] == IntToString(ids[i])
  {
    if ids == [] then [] else [IntToString(ids[0])] + Numerals(ids[1..])
  }

  /** Texts joined by `", "`. */
  function ListBody(items: seq<string>): string {
    if items == [] then ""
    else if |items| == 1 then items[0]
    else items[0] + ", " + ListBody(items[1..])
  }

  /** The numerals of `str(ids)` can be read back: the text between the
      brackets splits on `,` into one field per id, the id's numeral after a
      space for all but the first. */
  lemma IdsBodySplits(ids: seq<int>)
    requires ids != []
    ensures var f := SplitOn(IdsBody(ids), ',');
            |f| == |ids| && f[0] == IntToString(ids[0])
            && forall i :: 1 <= i < |ids| ==> f[i] == " " + IntToString(ids[i])
  {
    var items := Numerals(ids);
    forall i | 0 <= i < |items| ensures ',' !in items[i] {
      NumeralHasNoComma(ids[i]);
    }
    ListBodySplits(items);
  }

  /** Comma-free texts joined by `", "` split on `,` into one field per
      text, after a space for all but the first. */
  lemma {:induction false} ListBodySplits(items: seq<string>)
    requires items != [] && forall i :: 0 <= i < |items| ==> ',' !in items[i]
    ensures var f := SplitOn(ListBody(items), ',');
            |f| == |items| && f[0] == items[0]
            && forall i :: 1 <= i < |items| ==> f[i] == " " + items[i]
  {
    if |items| == 1 {
      SplitOnNoSeparator(items[0], ',');
    } else {
      var tail := items[1..];
      ListBodySplits(tail);
      assert ListBody(items) == items[0] + [','] + ([' '] + ListBody(tail));
      SpacedFieldsStep(items[0], ListBody(tail), tail);
    }
  }

  /** A field in front of a split whose fields after the first start with a
      space: the old first field gains a space and moves up by one. */
  lemma SpacedFieldsStep(first: string, body: string, nums: seq<string>)
    requires ',' !in first && |nums| >= 1
    requires var g := SplitOn(body, ',');
             |g| == |nums| && g[0] == nums[0] && forall i :: 1 <= i < |nums| ==> g[i] == " " + nums[i]
    ensures var f := SplitOn(first + [','] + ([' '] + body), ',');
            |f| == |nums| + 1 && f[0] == first && forall i :: 1 <= i <= |nums| ==> f[i] == " " + nums[i - 1]
  {
    SplitAfterNumeral(first, body);
    var rest := SplitOn(body, ',');
    forall i | 1 <= i <= |nums|
      ensures SplitOn(first + [','] + ([' '] + body), ',')[i] == " " + nums[i - 1]
    {
      FieldAfterNumeral(first, rest, i);
    }
  }

  /** Indexing the fields `SplitAfterNumeral` produces. */
  lemma FieldAfterNumeral(first: string, rest: seq<string>, i: int)
    requires 1 <= i <= |rest|
    ensures var f := [first] + ([[' '] + rest[0]] + rest[1..]);
            |f| == |rest| + 1 && f[i] == (if i == 1 then [' '] + rest[0] else rest[i - 1])
  {
  }

  /** A numeral, then `, `, then the rest: the numeral is one field and the
      space sticks to the first field of the rest. */
  lemma SplitAfterNumeral(first: string, body: string)
    requires ',' !in first
    ensures var rest := SplitOn(body, ',');
            SplitOn(first + [','] + ([' '] + body), ',') == [first] + ([[' '] + rest[0]] + rest[1..])
  {
    SplitOnField(first, [' '] + body, ',');
    SplitOnCons(' ', body, ',');
  }

  /** The two tables the backfill touches. */
  datatype HistState = HistState(candidatos: map<int, Candidato>, gnoticias: map<NewsKey, Enriched>)

  /** One candidate of `main`: skipped when it does not exist, otherwise
      backfilled over the configured range with its own keywords and then
      marked. */
  function RunCandidate(st: HistState, id: int, feeds: int -> int -> Outcome<seq<FeedEntry>>,
                        svc: Services): HistState
  {
    if id !in st.candidatos then st
    else
      var ctx := HistContext(id, st.candidatos[id].keywords, svc);
      HistState(MarkProcessed(st.candidatos, id, "his", false),
                HistRun(st.gnoticias, feeds(id), ctx, StartDay, EndDay))
  }

  function RunCandidates(st: HistState, ids: seq<int>, feeds: int -> int -> Outcome<seq<FeedEntry>>,
                         svc: Services): HistState
    decreases |ids|
  {
    if ids == [] then st else RunCandidates(RunCandidate(st, ids[0], feeds, svc), ids[1..], feeds, svc)
  }

  /** The backfill marks exactly the listed candidates that exist, keeps
      every other field of every candidate, and keeps every stored row. */
  lemma {:induction false} RunCandidatesEffect(st: HistState, ids: seq<int>,
                                               feeds: int -> int -> Outcome<seq<FeedEntry>>, svc: Services)
    ensures var r := RunCandidates(st, ids, feeds, svc);
            && r.candidatos.Keys == st.candidatos.Keys
            && (forall j :: j in r.candidatos ==>
                  r.candidatos[j] == st.candidatos[j].(his := st.candidatos[j].his || j in ids))
            && (forall k :: k in st.gnoticias ==> k in r.gnoticias && r.gnoticias[k] == st.gnoticias[k])
    decreases |ids|
  {
    if ids != [] {
      var st1 := RunCandidate(st, ids[0], feeds, svc);
      if ids[0] in st.candidatos {
        HistRunSound(st.gnoticias, feeds(ids[0]), HistContext(ids[0], st.candidatos[ids[0]].keywords, svc),
                     StartDay, EndDay);
      }
      RunCandidatesEffect(st1, ids[1..], feeds, svc);
      assert forall j :: j in ids <==> j == ids[0] || j in ids[1..];
    }
  }

  /** `main` of the historical script: records the run, backfills each
      configured candidate that exists, and records the run as finished.
      `feeds(id)(day)` is the feed of candidate `id` for day `day`. */
  method MainHistorico(store: Store, ledger: Ledger, feeds: int -> int -> Outcome<seq<FeedEntry>>,
                       svc: Services, now: int)
    returns (logId: nat)
    requires ledger.Valid()
    modifies store, ledger
    ensures ledger.Valid() && logId !in old(ledger.records)
    ensures ledger.records == old(ledger.records)[logId := RunRecord(HistoricalProcess, "finished",
                                                    "Proceso hist\U{F3}rico completado.", now, Some(now))]
    ensures HistState(store.candidatos, store.gnoticias)
            == RunCandidates(HistState(old(store.candidatos), old(store.gnoticias)), CandidatosIds, feeds, svc)
    ensures store.gnoticiasExHis == old(store.gnoticiasExHis) && store.gnoticiasEx == old(store.gnoticiasEx)
  {
    var ids := CandidatosIds;
    logId := ledger.LogStart(HistoricalProcess, Some("procesando ids " + IdsToString(ids)), now, false);
    ghost var records1 := ledger.records;
    var i := 0;
    while i < |ids|
      invariant 0 <= i <= |ids|
      invariant ledger.Valid() && ledger.records == records1
      invariant RunCandidates(HistState(store.candidatos, store.gnoticias), ids[i..], feeds, svc)
                == RunCandidates(HistState(old(store.candidatos), old(store.gnoticias)), ids, feeds, svc)
      invariant store.gnoticiasExHis == old(store.gnoticiasExHis) && store.gnoticiasEx == old(store.gnoticiasEx)
    {
      assert ids[i..][0] == ids[i] && ids[i..][1..] == ids[i + 1..];
      var candidatoId := ids[i];
      if candidatoId in store.candidatos {
        var ctx := HistContext(candidatoId, store.candidatos[candidatoId].keywords, svc);
        ghost var days := FetchNewsForCandidateHistorico(store, ctx, feeds(candidatoId), StartDay, EndDay);
      }
      i := i + 1;
    }
    ledger.LogEnd(logId, "finished", Some("Proceso hist\U{F3}rico completado."), now, false);
  }
}
