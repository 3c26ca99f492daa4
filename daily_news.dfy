/** The daily Google News ingestion of `gnoticias/ex_gnoticias.py`: text
    normalisation, the candidate-name search in a headline, the shaping of a
    feed entry into a news row, the per-candidate fetch loop and the
    candidate work queue of `main`. Feeds are given as values, one per
    candidate; the fuzzy tier of the name search is a function passed in. */
module DailyNews {
  import opened Text
  import opened Calendar
  import opened Feed
  import opened NewsDb
  import opened RunLedger

  // ---------------------------------------------------------------------------
  // normalize_text
  // ---------------------------------------------------------------------------

  /** What `lower()`, NFD decomposition and the removal of the combining
      marks leave of one character. Every character that is then outside
      `[a-z0-9]` becomes a separator. */
  function FoldChar(c: char): string {
    if 'A' <= c <= 'Z' then [LowerAscii(c)]
    else if Deaccent(c).Some? then [Deaccent(c).value]
    else if IsCombiningMark(c) then []
    else [c]
  }

  function Fold(s: string): string {
    if s == [] then [] else FoldChar(s[0]) + Fold(s[1..])
  }

  /** `normalize_text`: lower case without accents, every other character a
      separator, words joined by single spaces. */
  function NormalizeText(text: string): (r: string)
    ensures IsNormalized(r)
  {
    Squeeze(Fold(text))
  }

  /** Folding changes nothing in a text made of `[a-z0-9 ]`. */
  lemma {:induction false} FoldKeepsPlainText(t: string)
    requires forall k :: 0 <= k < |t| ==> IsWordChar(t[k]) || t[k] == ' '
    ensures Fold(t) == t
  {
    if t != [] {
      FoldKeepsPlainText(t[1..]);
      assert FoldChar(t[0]) == [t[0]];
    }
  }

  /** Normalising twice is normalising once. */
  lemma NormalizeTextIdempotent(text: string)
    ensures NormalizeText(NormalizeText(text)) == NormalizeText(text)
  {
    var t := NormalizeText(text);
    FoldKeepsPlainText(t);
    SqueezeNormalized(t);
  }

  // ---------------------------------------------------------------------------
  // limpiar_apellidos
  // ---------------------------------------------------------------------------

  /** `STOPWORDS_APELLIDO`: the particles of Spanish surnames. */
  const StopwordsApellido: set<string> := {"de", "del", "la", "las", "los", "y", "san", "santa"}

  /** `limpiar_apellidos`: the tokens that are not particles. */
  function LimpiarApellidos(tokens: seq<string>): (r: seq<string>)
    ensures forall t :: t in r <==> t in tokens && t !in StopwordsApellido
    ensures |r| <= |tokens|
  {
    if tokens == [] then []
    else (if tokens[0] in StopwordsApellido then [] else [tokens[0]]) + LimpiarApellidos(tokens[1..])
  }

  /** The filter keeps the original order: it works token by token. */
  lemma {:induction false} LimpiarApellidosConcat(a: seq<string>, b: seq<string>)
    ensures LimpiarApellidos(a + b) == LimpiarApellidos(a) + LimpiarApellidos(b)
  {
    if a != [] {
      assert (a + b)[1..] == a[1..] + b;
      LimpiarApellidosConcat(a[1..], b);
    } else {
      assert a + b == b;
    }
  }

  // ---------------------------------------------------------------------------
  // buscar_nombre_en_titular
  // ---------------------------------------------------------------------------

  /** The tags of the exact rules, in the order they are tried. */
  datatype ExactRule = ApellidoCompuesto | NombreApellidoPaterno | NombreApellidoMaterno
                     | ApellidoPaterno | ApellidoMaterno

  /** The tags the fuzzy tier can return. */
  datatype FuzzyRule = NombreCompleto | FuzzyApellidoPaterno | FuzzyApellidoMaterno | FuzzyNombre | NoMatch

  datatype Rule = Exact(exact: ExactRule) | Fuzzy(fuzzy: FuzzyRule) | NombreInvalido

  /** The `(coincidencia, score, tipo)` triple. */
  datatype MatchResult = MatchResult(span: Option<string>, score: real, rule: Rule)

  /** What the fuzzy tier works from: the normalised name and headline and
      the three name parts. */
  datatype FuzzyInput = FuzzyInput(nombreNorm: string, titularNorm: string, nombreSimple: string,
                                   paterno: string, materno: string)

  datatype FuzzyResult = FuzzyResult(span: Option<string>, score: real, rule: FuzzyRule)

  /** The `SequenceMatcher` tier (whole-name ratio, then word by word), not
      modelled: any function of its input. */
  type FuzzyTier = FuzzyInput -> FuzzyResult

  /** `nombre_norm.split()`. */
  function Partes(nombre: string): seq<string> {
    Words(NormalizeText(nombre))
  }

  /** The paternal surname: the second-to-last clean token when there are
      three or more, else the last. */
  function Paterno(limpias: seq<string>): string
    requires limpias != []
  {
    if |limpias| >= 3 then limpias[|limpias| - 2] else limpias[|limpias| - 1]
  }

  function Materno(limpias: seq<string>): string
    requires limpias != []
  {
    limpias[|limpias| - 1]
  }

  /** The exact rules in the order the ladder tries them, each with the
      phrase it looks for; the compound surname only with three or more
      clean tokens. */
  function ExactRules(limpias: seq<string>): seq<(ExactRule, string)>
    requires limpias != []
  {
    var simple := limpias[0];
    (if |limpias| >= 3 then [(ApellidoCompuesto, Join(limpias[|limpias| - 2..]))] else [])
    + [ (NombreApellidoPaterno, simple + " " + Paterno(limpias)),
        (NombreApellidoMaterno, simple + " " + Materno(limpias)),
        (ApellidoPaterno, Paterno(limpias)),
        (ApellidoMaterno, Materno(limpias)) ]
  }

  /** Rule `i` is the first of `rules` whose phrase occurs in `t`. */
  predicate FirstHitAt(rules: seq<(ExactRule, string)>, t: string, i: int) {
    && 0 <= i < |rules|
    && Contains(t, rules[i].1)
    && forall j :: 0 <= j < i ==> !Contains(t, rules[j].1)
  }

  function FuzzyInputOf(nombre: string, titular: string): FuzzyInput
    requires LimpiarApellidos(Partes(nombre)) != []
  {
    var limpias := LimpiarApellidos(Partes(nombre));
    FuzzyInput(NormalizeText(nombre), NormalizeText(titular), limpias[0], Paterno(limpias), Materno(limpias))
  }

  /** `buscar_nombre_en_titular`. A name of fewer than two words is invalid;
      a name of two or more words that are all particles makes
      `partes_limpias[0]` raise IndexError. Otherwise the exact rules are
      tried in order, each a substring test on the normalised headline, and
      then the fuzzy tier. */
  function BuscarNombreEnTitular(nombre: string, titular: string, fuzzy: FuzzyTier)
    : (r: Outcome<MatchResult>)
    ensures |Partes(nombre)| < 2 ==> r == Returned(MatchResult(None, 0.0, NombreInvalido))
    ensures r.Raised? <==> |Partes(nombre)| >= 2 && LimpiarApellidos(Partes(nombre)) == []
    ensures r.Returned? && r.value.rule.Exact? ==>
              && r.value.span.Some? && r.value.score == 100.0
              && Contains(NormalizeText(titular), r.value.span.value)
              && (r.value.rule.exact == ApellidoCompuesto ==> |LimpiarApellidos(Partes(nombre))| >= 3)
  {
    var nombreNorm := NormalizeText(nombre);
    var titularNorm := NormalizeText(titular);
    var partes := Words(nombreNorm);
    if |partes| < 2 then Returned(MatchResult(None, 0.0, NombreInvalido))
    else
      var limpias := LimpiarApellidos(partes);
      if limpias == [] then Raised("IndexError: list index out of range")
      else
        var nombreSimple := limpias[0];
        var paterno := Paterno(limpias);
        var materno := Materno(limpias);
        var compuesto := if |limpias| >= 3 then Some(Join(limpias[|limpias| - 2..])) else None;
        if compuesto.Some? && compuesto.value != "" && Contains(titularNorm, compuesto.value) then
          Returned(MatchResult(compuesto, 100.0, Exact(ApellidoCompuesto)))
        else if Contains(titularNorm, nombreSimple + " " + paterno) then
          Returned(MatchResult(Some(nombreSimple + " " + paterno), 100.0, Exact(NombreApellidoPaterno)))
        else if Contains(titularNorm, nombreSimple + " " + materno) then
          Returned(MatchResult(Some(nombreSimple + " " + materno), 100.0, Exact(NombreApellidoMaterno)))
        else if Contains(titularNorm, paterno) then
          Returned(MatchResult(Some(paterno), 100.0, Exact(ApellidoPaterno)))
        else if Contains(titularNorm, materno) then
          Returned(MatchResult(Some(materno), 100.0, Exact(ApellidoMaterno)))
        else
          var f := fuzzy(FuzzyInput(nombreNorm, titularNorm, nombreSimple, paterno, materno));
          Returned(MatchResult(f.span, f.score, Fuzzy(f.rule)))
  }

  /** Clean tokens are words, so the compound surname is never empty. */
  lemma CleanTokensAreWords(nombre: string)
    ensures AllWords(LimpiarApellidos(Partes(nombre)))
  {
    var partes := Partes(nombre);
    var limpias := LimpiarApellidos(partes);
    forall k | 0 <= k < |limpias| ensures IsWord(limpias[k]) {
      assert limpias[k] in partes;
      var i :| 0 <= i < |partes| && partes[i] == limpias[k];
    }
  }

  /** The precedence ladder: the first rule whose phrase occurs in `t`
      decides, with score 100; when none does, the fuzzy result `f`. */
  function Ladder(rules: seq<(ExactRule, string)>, t: string, f: FuzzyResult): MatchResult
  {
    if rules == [] then MatchResult(f.span, f.score, Fuzzy(f.rule))
    else if Contains(t, rules[0].1) then MatchResult(Some(rules[0].1), 100.0, Exact(rules[0].0))
    else Ladder(rules[1..], t, f)
  }

  /** The ladder picks the first hit, and falls through to the fuzzy result
      exactly when no phrase occurs. */
  lemma {:induction false} LadderFirstHit(rules: seq<(ExactRule, string)>, t: string, f: FuzzyResult)
    ensures forall i :: FirstHitAt(rules, t, i) ==>
              Ladder(rules, t, f) == MatchResult(Some(rules[i].1), 100.0, Exact(rules[i].0))
    ensures (forall i :: 0 <= i < |rules| ==> !Contains(t, rules[i].1)) ==>
              Ladder(rules, t, f) == MatchResult(f.span, f.score, Fuzzy(f.rule))
  {
    if rules != [] && !Contains(t, rules[0].1) {
      var rest := rules[1..];
      LadderFirstHit(rest, t, f);
      forall i | FirstHitAt(rules, t, i)
        ensures Ladder(rules, t, f) == MatchResult(Some(rules[i].1), 100.0, Exact(rules[i].0))
      {
        assert i > 0;
        assert FirstHitAt(rest, t, i - 1) by {
          forall j | 0 <= j < i - 1 ensures !Contains(t, rest[j].1) {
            assert rest[j] == rules[j + 1];
          }
        }
      }
      if forall i :: 0 <= i < |rules| ==> !Contains(t, rules[i].1) {
        forall j | 0 <= j < |rest| ensures !Contains(t, rest[j].1) {
          assert rest[j] == rules[j + 1];
        }
      }
    }
  }

  /** The four rules every name has, unrolled. */
  lemma LadderOfSimpleRules(t: string, simple: string, paterno: string, materno: string, f: FuzzyResult)
    ensures Ladder([(NombreApellidoPaterno, simple + " " + paterno),
                    (NombreApellidoMaterno, simple + " " + materno),
                    (ApellidoPaterno, paterno),
                    (ApellidoMaterno, materno)], t, f)
            == if Contains(t, simple + " " + paterno) then
                 MatchResult(Some(simple + " " + paterno), 100.0, Exact(NombreApellidoPaterno))
               else if Contains(t, simple + " " + materno) then
                 MatchResult(Some(simple + " " + materno), 100.0, Exact(NombreApellidoMaterno))
               else if Contains(t, paterno) then
                 MatchResult(Some(paterno), 100.0, Exact(ApellidoPaterno))
               else if Contains(t, materno) then
                 MatchResult(Some(materno), 100.0, Exact(ApellidoMaterno))
               else MatchResult(f.span, f.score, Fuzzy(f.rule))
  {
    var r4 := [(NombreApellidoPaterno, simple + " " + paterno),
               (NombreApellidoMaterno, simple + " " + materno),
               (ApellidoPaterno, paterno),
               (ApellidoMaterno, materno)];
    assert r4[1..] == [(NombreApellidoMaterno, simple + " " + materno),
                       (ApellidoPaterno, paterno), (ApellidoMaterno, materno)];
    assert r4[1..][1..] == [(ApellidoPaterno, paterno), (ApellidoMaterno, materno)];
    assert r4[1..][1..][1..] == [(ApellidoMaterno, materno)];
    assert r4[1..][1..][1..][1..] == [];
    assert Ladder(r4[1..][1..], t, f) == if Contains(t, paterno) then
             MatchResult(Some(paterno), 100.0, Exact(ApellidoPaterno))
           else Ladder(r4[1..][1..][1..], t, f);
  }

  /** `buscar_nombre_en_titular` on a valid name is the ladder over
      `ExactRules` followed by the fuzzy tier. */
  lemma BuscarIsLadder(nombre: string, titular: string, fuzzy: FuzzyTier)
    requires |Partes(nombre)| >= 2 && LimpiarApellidos(Partes(nombre)) != []
    ensures BuscarNombreEnTitular(nombre, titular, fuzzy)
            == Returned(Ladder(ExactRules(LimpiarApellidos(Partes(nombre))), NormalizeText(titular),
                               fuzzy(FuzzyInputOf(nombre, titular))))
  {
    var limpias := LimpiarApellidos(Partes(nombre));
    var t := NormalizeText(titular);
    var f := fuzzy(FuzzyInputOf(nombre, titular));
    var simple := [(NombreApellidoPaterno, limpias[0] + " " + Paterno(limpias)),
                   (NombreApellidoMaterno, limpias[0] + " " + Materno(limpias)),
                   (ApellidoPaterno, Paterno(limpias)),
                   (ApellidoMaterno, Materno(limpias))];
    LadderOfSimpleRules(t, limpias[0], Paterno(limpias), Materno(limpias), f);
    if |limpias| >= 3 {
      var c := Join(limpias[|limpias| - 2..]);
      CleanTokensAreWords(nombre);
      assert c != "" by {
        assert IsWord(limpias[|limpias| - 2..][0]);
      }
      assert ExactRules(limpias) == [(ApellidoCompuesto, c)] + simple;
      assert ([(ApellidoCompuesto, c)] + simple)[1..] == simple;
    } else {
      assert ExactRules(limpias) == simple;
    }
  }

  /** The exact tier is a precedence ladder over `ExactRules`: the first rule
      whose phrase occurs in the normalised headline decides, with score 100;
      when no phrase occurs, the fuzzy tier decides. */
  lemma BuscarFollowsLadder(nombre: string, titular: string, fuzzy: FuzzyTier)
    requires |Partes(nombre)| >= 2 && LimpiarApellidos(Partes(nombre)) != []
    ensures var rules := ExactRules(LimpiarApellidos(Partes(nombre)));
            var t := NormalizeText(titular);
            var r := BuscarNombreEnTitular(nombre, titular, fuzzy);
            && (forall i :: FirstHitAt(rules, t, i) ==>
                  r == Returned(MatchResult(Some(rules[i].1), 100.0, Exact(rules[i].0))))
            && ((forall i :: 0 <= i < |rules| ==> !Contains(t, rules[i].1)) ==>
                  var f := fuzzy(FuzzyInputOf(nombre, titular));
                  r == Returned(MatchResult(f.span, f.score, Fuzzy(f.rule))))
  {
    BuscarIsLadder(nombre, titular, fuzzy);
    LadderFirstHit(ExactRules(LimpiarApellidos(Partes(nombre))), NormalizeText(titular),
                   fuzzy(FuzzyInputOf(nombre, titular)));
  }

  // ---------------------------------------------------------------------------
  // match_nombre_titular
  // ---------------------------------------------------------------------------

  /** `w` occurs in `t` at `i` between word boundaries (`\b` of a regular
      expression): no word character touches it on either side. */
  predicate WholeWordAt(t: string, w: string, i: int) {
    && OccursAt(t, w, i)
    && (i == 0 || !IsWordChar(t[i - 1]))
    && (i + |w| == |t| || !IsWordChar(t[i + |w|]))
  }

  /** `re.search(rf"\b{w}\b", t)` from position `i` on. */
  function SearchWholeWord(t: string, w: string, i: nat): (found: bool)
    ensures found <==> exists j :: i <= j && WholeWordAt(t, w, j)
    decreases |t| - i
  {
    if i + |w| > |t| then false
    else if WholeWordAt(t, w, i) then true
    else SearchWholeWord(t, w, i + 1)
  }

  /** `match_nombre_titular`: the last word of the name as a whole word of
      the headline, or the whole normalised name as a substring of it. */
  function MatchNombreTitular(nombre: string, titular: string): (r: bool)
    ensures var tokens := Partes(nombre);
            var t := NormalizeText(titular);
            r <==> tokens != [] && (var apellido := tokens[|tokens| - 1];
                                    (exists i :: WholeWordAt(t, apellido, i)) || Contains(t, Join(tokens)))
  {
    var titularNorm := NormalizeText(titular);
    var tokens := Partes(nombre);
    if tokens == [] then false
    else
      var apellido := tokens[|tokens| - 1];
      var nombreCompleto := Join(tokens);
      if SearchWholeWord(titularNorm, apellido, 0) then true
      else Contains(titularNorm, nombreCompleto)
  }

  // ---------------------------------------------------------------------------
  // process_feed_entry
  // ---------------------------------------------------------------------------

  /** `datetime(*published_parsed[:6])`. */
  function TupleDateTime(p: TimeTuple): DateTime {
    DateTime(p.year, p.mon, p.mday, p.hour, p.min, p.sec)
  }

  /** `process_feed_entry` of the daily script: None for an entry without a
      publication date, with a date `datetime` rejects, or without a link.
      The link is the decoded URL, or the Google News URL when the decoder
      gives none or raises; the long id is the entry id, or the URL when the
      id is missing or empty; the short id is its digest. */
  function ProcessFeedEntry(entry: FeedEntry, candidatoId: int, svc: Services): (r: Option<News>)
    ensures r.None? <==> || entry.published.None?
                         || !IsValidDateTime(TupleDateTime(entry.published.value))
                         || entry.link.GetOr("") == ""
    ensures r.Some? ==>
              var n := r.value;
              var url := entry.link.value;
              var p := entry.published.value;
              && KeyOf(n) == NewsKey(svc.md5(n.idLargo), candidatoId)
              && (n.noticia, n.medio) == SplitTitle(entry.title.GetOr(""))
              && n.idLargo == (if entry.id.GetOr("") != "" then entry.id.value else url)
              && n.idLargo != ""
              && n.link == (if svc.decode(url).DecodedUrl? then svc.decode(url).url else url)
              && n.fecha == TupleDateTime(p) && IsValidDateTime(n.fecha)
              && (n.ano, n.mes, n.dia, n.hora, n.minuto, n.diaSem, n.diaAno)
                 == (p.year, p.mon, p.mday, p.hour, p.min, p.wday, p.yday)
              && n.sourceHref == SourceHref(entry)
  {
    var titulo := entry.title.GetOr("");
    if entry.published.None? then None
    else
      var p := entry.published.value;
      var fechaDt := TupleDateTime(p);
      if !IsValidDateTime(fechaDt) then None
      else
        var (noticia, medio) := SplitTitle(titulo);
        var googleNewsUrl := entry.link.GetOr("");
        if googleNewsUrl == "" then None
        else
          var link := match svc.decode(googleNewsUrl)
                      case DecodedUrl(u) => u
                      case NoDecodedUrl => googleNewsUrl
                      case DecoderRaised(_) => googleNewsUrl;
          var entryId := if entry.id.GetOr("") != "" then entry.id.value else googleNewsUrl;
          Some(News(candidatoId, svc.md5(entryId), noticia, medio, fechaDt, SourceHref(entry),
                    p.year, p.mon, p.mday, p.hour, p.min, p.wday, p.yday, link, entryId))
  }

  // ---------------------------------------------------------------------------
  // fetch_news_for_candidate
  // ---------------------------------------------------------------------------

  /** The candidate being fetched and the services the fetch uses. */
  datatype DailyContext = DailyContext(candidatoId: int, nombre: string, svc: Services, fuzzy: FuzzyTier)

  /** A raising name search is caught by the feed's `except Exception`,
      which abandons the rest of the feed. */
  function EntryVerdict(e: FeedEntry, ctx: DailyContext): Verdict {
    match ProcessFeedEntry(e, ctx.candidatoId, ctx.svc)
    case None => Skip
    case Some(n) =>
      match BuscarNombreEnTitular(ctx.nombre, n.noticia, ctx.fuzzy)
      case Raised(_) => Stop
      case Returned(m) => if m.span.Some? && m.span.value != "" then Keep(n) else Skip
  }

  /** `gnoticias_ex` after the fetch loop has run over `entries`. */
  function DailyRun(table: map<NewsKey, News>, entries: seq<FeedEntry>, ctx: DailyContext)
    : map<NewsKey, News>
    decreases |entries|
  {
    if entries == [] then table
    else
      match EntryVerdict(entries[0], ctx)
      case Stop => table
      case Skip => DailyRun(table, entries[1..], ctx)
      case Keep(n) => DailyRun(InsertIfAbsent(table, KeyOf(n), n, false), entries[1..], ctx)
  }

  /** The fetch keeps every stored row, and each row it adds is the row of an
      entry that parsed, has a link and whose headline names the candidate. */
  lemma {:induction false} DailyRunSound(table: map<NewsKey, News>, entries: seq<FeedEntry>, ctx: DailyContext)
    ensures var r := DailyRun(table, entries, ctx);
            && (forall k :: k in table ==> k in r && r[k] == table[k])
            && (forall k :: k in r && k !in table ==>
                  KeyOf(r[k]) == k && r[k].candidatoId == ctx.candidatoId
                  && exists i :: 0 <= i < |entries| && EntryVerdict(entries[i], ctx) == Keep(r[k]))
    decreases |entries|
  {
    if entries != [] {
      var rest := entries[1..];
      assert forall i :: 0 <= i < |rest| ==> rest[i] == entries[i + 1];
      match EntryVerdict(entries[0], ctx)
      case Stop =>
      case Skip =>
        DailyRunSound(table, rest, ctx);
      case Keep(n) =>
        var t1 := InsertIfAbsent(table, KeyOf(n), n, false);
        DailyRunSound(t1, rest, ctx);
        var r := DailyRun(table, entries, ctx);
        forall k | k in r && k !in table
          ensures KeyOf(r[k]) == k && r[k].candidatoId == ctx.candidatoId
          ensures exists i :: 0 <= i < |entries| && EntryVerdict(entries[i], ctx) == Keep(r[k])
        {
          if k in t1 {
            assert k == KeyOf(n) && r[k] == n;
            assert EntryVerdict(entries[0], ctx) == Keep(r[k]);
          } else {
            var i :| 0 <= i < |rest| && EntryVerdict(rest[i], ctx) == Keep(r[k]);
            assert EntryVerdict(entries[i + 1], ctx) == Keep(r[k]);
          }
        }
    }
  }

  /** `n` is the row the fetch keeps for some entry of `feed`. */
  ghost predicate KeptFrom(feed: Outcome<seq<FeedEntry>>, ctx: DailyContext, n: News) {
    feed.Returned? && exists i :: 0 <= i < |feed.value| && EntryVerdict(feed.value[i], ctx) == Keep(n)
  }

  /** Every row of `ex` that `ex0` lacks is a row of the candidate of `ctx`,
      kept from `feed`, under its own key. */
  ghost predicate AddedFrom(ex0: map<NewsKey, News>, ex: map<NewsKey, News>, feed: Outcome<seq<FeedEntry>>,
                            ctx: DailyContext)
  {
    forall k :: k in ex && k !in ex0 ==>
      KeyOf(ex[k]) == k && ex[k].candidatoId == ctx.candidatoId && KeptFrom(feed, ctx, ex[k])
  }

  /** What a fetch adds to `gnoticias_ex` comes from the fetched feed. */
  lemma FetchAdds(table: map<NewsKey, News>, feed: Outcome<seq<FeedEntry>>, ctx: DailyContext)
    ensures AddedFrom(table, if feed.Returned? then DailyRun(table, feed.value, ctx) else table, feed, ctx)
  {
    if feed.Returned? {
      DailyRunSound(table, feed.value, ctx);
    }
  }

  /** With no entry stopping the loop, every kept entry ends up stored under
      its key (a first save, or an earlier row with the same key). */
  lemma {:induction false} DailyRunComplete(table: map<NewsKey, News>, entries: seq<FeedEntry>, ctx: DailyContext)
    requires forall i :: 0 <= i < |entries| ==> !EntryVerdict(entries[i], ctx).Stop?
    ensures forall i :: 0 <= i < |entries| && EntryVerdict(entries[i], ctx).Keep? ==>
              KeyOf(EntryVerdict(entries[i], ctx).news) in DailyRun(table, entries, ctx)
    decreases |entries|
  {
    if entries != [] {
      var rest := entries[1..];
      assert forall i :: 0 <= i < |rest| ==> rest[i] == entries[i + 1];
      var t1 := match EntryVerdict(entries[0], ctx)
                case Keep(n) => InsertIfAbsent(table, KeyOf(n), n, false)
                case _ => table;
      DailyRunComplete(t1, rest, ctx);
      DailyRunSound(t1, rest, ctx);
    }
  }

  /** The name search raises only for a name of two or more words that are
      all particles; for any other name the loop never stops early. */
  lemma NoStopForUsableName(entries: seq<FeedEntry>, ctx: DailyContext)
    requires |Partes(ctx.nombre)| < 2 || LimpiarApellidos(Partes(ctx.nombre)) != []
    ensures forall i :: 0 <= i < |entries| ==> !EntryVerdict(entries[i], ctx).Stop?
  {
  }

  /** `fetch_news_for_candidate`: runs over the entries of the candidate's
      feed (none when fetching or parsing the feed raised) and then marks the
      candidate's `ex` flag, whatever happened to the feed. */
  method FetchNewsForCandidate(store: Store, ctx: DailyContext, feed: Outcome<seq<FeedEntry>>)
    modifies store
    ensures store.gnoticiasEx == (if feed.Returned? then DailyRun(old(store.gnoticiasEx), feed.value, ctx)
                                  else old(store.gnoticiasEx))
    ensures store.candidatos == MarkProcessed(old(store.candidatos), ctx.candidatoId, "ex", false)
    ensures store.gnoticiasExHis == old(store.gnoticiasExHis) && store.gnoticias == old(store.gnoticias)
  {
    if feed.Returned? {
      var entries := feed.value;
      var i := 0;
      while i < |entries|
        invariant 0 <= i <= |entries|
        invariant DailyRun(store.gnoticiasEx, entries[i..], ctx) == DailyRun(old(store.gnoticiasEx), entries, ctx)
        invariant store.candidatos == old(store.candidatos)
        invariant store.gnoticiasExHis == old(store.gnoticiasExHis) && store.gnoticias == old(store.gnoticias)
      {
        assert entries[i..][0] == entries[i] && entries[i..][1..] == entries[i + 1..];
        var stop := HandleEntry(store, entries[i], ctx);
        if stop {
          break;
        }
        i := i + 1;
      }
    }
    store.MarcarCandidatoComoProcesado(ctx.candidatoId, "ex", false);
  }

  /** One pass of the fetch loop over entry `e`: a parsed entry whose
      headline names the candidate is stored unless its key is already there;
      `stop` reports that the name search raised and the loop ends. */
  method HandleEntry(store: Store, e: FeedEntry, ctx: DailyContext) returns (stop: bool)
    modifies store
    ensures stop <==> EntryVerdict(e, ctx).Stop?
    ensures store.gnoticiasEx == match EntryVerdict(e, ctx)
                                 case Keep(n) => InsertIfAbsent(old(store.gnoticiasEx), KeyOf(n), n, false)
                                 case _ => old(store.gnoticiasEx)
    ensures store.candidatos == old(store.candidatos)
    ensures store.gnoticiasExHis == old(store.gnoticiasExHis) && store.gnoticias == old(store.gnoticias)
  {
    stop := false;
    match EntryVerdict(e, ctx)
    case Stop =>
      stop := true;
    case Skip =>
    case Keep(n) =>
      var duplicada := store.NewsExistsDia(n.id, ctx.candidatoId, false);
      if duplicada {
        assert InsertIfAbsent(store.gnoticiasEx, KeyOf(n), n, false) == store.gnoticiasEx;
      } else {
        store.SaveNewsToDbDia(n, false);
      }
  }

  // ---------------------------------------------------------------------------
  // main
  // ---------------------------------------------------------------------------

  const DailyProcess: string := "ex_gnoticias_diario"

  /** The candidates the work queue of `main` still has to visit. */
  function Awaiting(cands: map<int, Candidato>): set<int> {
    set j | j in cands && AwaitsDailyRun(cands, j)
  }

  /** The state of the candidate table while `main` works through its queue:
      after the reset, exactly the visited candidates have `ex` set; only
      candidates with a topic are visited, in increasing id order, each below
      every candidate still waiting. `cands0` is the table before the run. */
  ghost predicate DailyProgress(cands0: map<int, Candidato>, cands: map<int, Candidato>, order: seq<int>) {
    && cands.Keys == cands0.Keys
    && (forall j :: j in cands ==> cands[j] == cands0[j].(ex := j in order))
    && (forall j :: j in order ==> j in cands0 && cands0[j].idTema.Some?)
    && (forall a, b :: 0 <= a < b < |order| ==> order[a] < order[b])
    && (forall a, j :: 0 <= a < |order| && AwaitsDailyRun(cands, j) ==> order[a] < j)
  }

  /** Right after the reset no candidate has been visited. */
  lemma ResetStartsProgress(cands0: map<int, Candidato>)
    ensures DailyProgress(cands0, ResetEx(cands0, false), [])
  {
    var r := ResetEx(cands0, false);
    forall j | j in r ensures r[j] == cands0[j].(ex := false) {
      assert !r[j].ex;
      assert r[j].(ex := cands0[j].ex) == cands0[j];
    }
  }

  /** Visiting the lowest waiting candidate keeps the progress invariant and
      takes that candidate off the queue. */
  lemma VisitLowest(cands0: map<int, Candidato>, cands: map<int, Candidato>, order: seq<int>, id: int)
    requires DailyProgress(cands0, cands, order)
    requires AwaitsDailyRun(cands, id) && forall j :: AwaitsDailyRun(cands, j) ==> id <= j
    ensures DailyProgress(cands0, MarkProcessed(cands, id, "ex", false), order + [id])
    ensures Awaiting(MarkProcessed(cands, id, "ex", false)) == Awaiting(cands) - {id}
  {
    var next := MarkProcessed(cands, id, "ex", false);
    var order' := order + [id];
    assert forall a :: 0 <= a < |order| ==> order[a] < id;
    assert id !in order;
    forall j | j in next ensures next[j] == cands0[j].(ex := j in order') {
      assert j in order' <==> j in order || j == id;
    }
    forall a, j | 0 <= a < |order'| && AwaitsDailyRun(next, j) ensures order'[a] < j {
      assert AwaitsDailyRun(cands, j) && j != id;
    }
    assert forall j :: j in order' ==> j in order || j == id;
  }

  /** With the queue empty, the visited candidates are exactly those with a
      topic, and every one of them has `ex` set. */
  lemma ProgressDone(cands0: map<int, Candidato>, cands: map<int, Candidato>, order: seq<int>)
    requires DailyProgress(cands0, cands, order)
    requires forall j :: !AwaitsDailyRun(cands, j)
    ensures forall j :: j in order <==> j in cands0 && cands0[j].idTema.Some?
    ensures forall j :: j in cands ==> cands[j] == cands0[j].(ex := cands0[j].idTema.Some?)
  {
    forall j | j in cands0 && cands0[j].idTema.Some? ensures j in order {
      assert !AwaitsDailyRun(cands, j);
    }
  }

  /** Every row of `ex` that `ex0` lacks was kept, under its own key, from
      the feed of some visited candidate, searched under that candidate's
      name. */
  ghost predicate FromVisitedFeeds(ex0: map<NewsKey, News>, ex: map<NewsKey, News>, cands0: map<int, Candidato>,
                                   order: seq<int>, feeds: int -> Outcome<seq<FeedEntry>>, svc: Services,
                                   fuzzy: FuzzyTier)
  {
    forall k :: k in ex && k !in ex0 ==>
      KeyOf(ex[k]) == k
      && exists j :: j in order && j in cands0 && KeptFrom(feeds(j), DailyContext(j, cands0[j].nombre, svc, fuzzy), ex[k])
  }

  /** A visit that keeps the stored rows and adds only rows from the visited
      candidate's feed keeps `FromVisitedFeeds`, with that candidate visited. */
  lemma FromVisitedStep(ex0: map<NewsKey, News>, exA: map<NewsKey, News>, exB: map<NewsKey, News>,
                        cands0: map<int, Candidato>, order: seq<int>, id: int,
                        feeds: int -> Outcome<seq<FeedEntry>>, svc: Services, fuzzy: FuzzyTier)
    requires id in cands0
    requires FromVisitedFeeds(ex0, exA, cands0, order, feeds, svc, fuzzy)
    requires forall k :: k in exA ==> k in exB && exB[k] == exA[k]
    requires AddedFrom(exA, exB, feeds(id), DailyContext(id, cands0[id].nombre, svc, fuzzy))
    ensures FromVisitedFeeds(ex0, exB, cands0, order + [id], feeds, svc, fuzzy)
  {
    forall k | k in exB && k !in ex0
      ensures KeyOf(exB[k]) == k
      ensures exists j :: j in order + [id] && j in cands0
                && KeptFrom(feeds(j), DailyContext(j, cands0[j].nombre, svc, fuzzy), exB[k])
    {
      if k in exA {
        var j :| j in order && j in cands0 && KeptFrom(feeds(j), DailyContext(j, cands0[j].nombre, svc, fuzzy), exA[k]);
        assert j in order + [id];
      } else {
        assert id in order + [id];
      }
    }
  }

  /** `main` of the daily script: records the run, clears every `ex` flag,
      then repeatedly takes the lowest-id candidate with `ex` unset and a
      topic, fetches its feed (which sets its `ex`), until none is left, and
      records the run as finished. `order` is the sequence of candidates
      visited; `startDate` is the text of the start date. */
  method MainDaily(store: Store, ledger: Ledger, feeds: int -> Outcome<seq<FeedEntry>>, svc: Services,
                   fuzzy: FuzzyTier, startDate: string, now: int)
    returns (logId: nat, ghost order: seq<int>)
    requires ledger.Valid()
    modifies store, ledger
    ensures ledger.Valid() && logId !in old(ledger.records)
    ensures ledger.records == old(ledger.records)[logId := RunRecord(DailyProcess, "finished",
                                                    "No quedan candidatos", now, Some(now))]
    ensures store.candidatos.Keys == old(store.candidatos).Keys
    ensures forall j :: j in store.candidatos ==>
              store.candidatos[j] == old(store.candidatos)[j].(ex := old(store.candidatos)[j].idTema.Some?)
    ensures forall a, b :: 0 <= a < b < |order| ==> order[a] < order[b]
    ensures forall j :: j in order <==> j in old(store.candidatos) && old(store.candidatos)[j].idTema.Some?
    ensures forall k :: k in old(store.gnoticiasEx) ==>
              k in store.gnoticiasEx && store.gnoticiasEx[k] == old(store.gnoticiasEx)[k]
    ensures FromVisitedFeeds(old(store.gnoticiasEx), store.gnoticiasEx, old(store.candidatos), order, feeds, svc, fuzzy)
    ensures store.gnoticiasExHis == old(store.gnoticiasExHis) && store.gnoticias == old(store.gnoticias)
  {
    logId := ledger.LogStart(DailyProcess, Some("inicio procesamiento desde " + startDate), now, false);
    store.ResetCandidatosNews(false);
    ResetStartsProgress(old(store.candidatos));
    order := RunQueue(store, feeds, svc, fuzzy, old(store.candidatos));
    ledger.LogEnd(logId, "finished", Some("No quedan candidatos"), now, false);
  }

  /** The work queue of `main`: while some candidate is waiting, the lowest
      one is visited; `order` is the sequence of visits. The loop's exit
      branch, which records the run as finished, is the caller's last step. */
  method RunQueue(store: Store, feeds: int -> Outcome<seq<FeedEntry>>, svc: Services, fuzzy: FuzzyTier,
                  ghost cands0: map<int, Candidato>)
    returns (ghost order: seq<int>)
    requires DailyProgress(cands0, store.candidatos, [])
    modifies store
    ensures store.candidatos.Keys == cands0.Keys
    ensures forall j :: j in store.candidatos ==> store.candidatos[j] == cands0[j].(ex := cands0[j].idTema.Some?)
    ensures forall a, b :: 0 <= a < b < |order| ==> order[a] < order[b]
    ensures forall j :: j in order <==> j in cands0 && cands0[j].idTema.Some?
    ensures forall k :: k in old(store.gnoticiasEx) ==>
              k in store.gnoticiasEx && store.gnoticiasEx[k] == old(store.gnoticiasEx)[k]
    ensures FromVisitedFeeds(old(store.gnoticiasEx), store.gnoticiasEx, cands0, order, feeds, svc, fuzzy)
    ensures store.gnoticiasExHis == old(store.gnoticiasExHis) && store.gnoticias == old(store.gnoticias)
  {
    ghost var ex0 := store.gnoticiasEx;
    order := [];
    while true
      invariant DailyProgress(cands0, store.candidatos, order)
      invariant forall k :: k in ex0 ==> k in store.gnoticiasEx && store.gnoticiasEx[k] == ex0[k]
      invariant FromVisitedFeeds(ex0, store.gnoticiasEx, cands0, order, feeds, svc, fuzzy)
      invariant store.gnoticiasExHis == old(store.gnoticiasExHis) && store.gnoticias == old(store.gnoticias)
      decreases |Awaiting(store.candidatos)|
    {
      var next := store.NextCandidate();
      if next.None? {
        ProgressDone(cands0, store.candidatos, order);
        return;
      }
      var id := next.value;
      ghost var exA := store.gnoticiasEx;
      VisitCandidate(store, id, feeds(id), svc, fuzzy, cands0, order);
      FromVisitedStep(ex0, exA, store.gnoticiasEx, cands0, order, id, feeds, svc, fuzzy);
      order := order + [id];
    }
  }

  /** One turn of the queue in `main`: fetch the feed of the lowest waiting
      candidate `id`, which marks it; the progress invariant now holds with
      `id` visited, and the news stored before are kept. */
  method VisitCandidate(store: Store, id: int, feed: Outcome<seq<FeedEntry>>, svc: Services,
                        fuzzy: FuzzyTier, ghost cands0: map<int, Candidato>, ghost order: seq<int>)
    requires DailyProgress(cands0, store.candidatos, order)
    requires AwaitsDailyRun(store.candidatos, id)
    requires forall j :: AwaitsDailyRun(store.candidatos, j) ==> id <= j
    modifies store
    ensures DailyProgress(cands0, store.candidatos, order + [id])
    ensures Awaiting(store.candidatos) == old(Awaiting(store.candidatos)) - {id}
    ensures id in old(Awaiting(store.candidatos)) && id in cands0
    ensures forall k :: k in old(store.gnoticiasEx) ==>
              k in store.gnoticiasEx && store.gnoticiasEx[k] == old(store.gnoticiasEx)[k]
    ensures AddedFrom(old(store.gnoticiasEx), store.gnoticiasEx, feed, DailyContext(id, cands0[id].nombre, svc, fuzzy))
    ensures store.gnoticiasExHis == old(store.gnoticiasExHis) && store.gnoticias == old(store.gnoticias)
  {
    ghost var cands := store.candidatos;
    ghost var gex := store.gnoticiasEx;
    var ctx := DailyContext(id, store.candidatos[id].nombre, svc, fuzzy);
    FetchNewsForCandidate(store, ctx, feed);
    DailyRunSound(gex, if feed.Returned? then feed.value else [], ctx);
    FetchAdds(gex, feed, ctx);
    VisitLowest(cands0, cands, order, id);
  }
}
