/** What both ingestion scripts read from a Google News RSS entry, and the
    services they call on it. The feed parser, the URL decoder and the MD5
    digest are not modelled: an entry is a value, and the decoder and the
    digest are functions passed in. */
module Feed {
  import opened Text

  /** The `published_parsed` struct_time of an entry (1-based month and day,
      `tm_wday` with Monday 0, `tm_yday` with January 1st as 1). */
  datatype TimeTuple = TimeTuple(year: int, mon: int, mday: int, hour: int, min: int, sec: int,
                                 wday: int, yday: int)

  /** An entry as `entry.get(...)` sees it: None for a missing key. `source`
      is None when the entry has no `source` element, and otherwise holds
      that element's optional `href`. */
  datatype FeedEntry = FeedEntry(title: Option<string>, published: Option<TimeTuple>,
                                 link: Option<string>, id: Option<string>,
                                 source: Option<Option<string>>)

  /** What `gnewsdecoder(url)` gives: a dictionary with a `decoded_url`, one
      without it, or an exception. */
  datatype DecoderReply = DecodedUrl(url: string) | NoDecodedUrl | DecoderRaised(error: string)

  /** The external services an entry goes through: the Google News URL
      decoder and `hashlib.md5(...).hexdigest()`. */
  datatype Services = Services(decode: string -> DecoderReply, md5: string -> string)

  /** The separator between headline and outlet in a Google News title. */
  const Sep: string := " - "

  /** The outlet of a title that carries none. */
  const UnknownOutlet: string := "Desconocido"

  /** `i` is where the last `" - "` of `titulo` starts. */
  ghost predicate LastSepAt(titulo: string, i: int) {
    OccursAt(titulo, Sep, i) && forall j :: i < j ==> !OccursAt(titulo, Sep, j)
  }

  /** `(noticia, medio)` of a title: split at the last `" - "` (what
      `rsplit(" - ", 1)` does once `" - " in titulo` holds), both halves
      stripped; a title without the separator is the stripped headline of an
      unknown outlet. */
  function SplitTitle(titulo: string): (r: (string, string))
    ensures (forall i :: !OccursAt(titulo, Sep, i)) ==> r == (Strip(titulo), UnknownOutlet)
    ensures (exists i :: OccursAt(titulo, Sep, i)) ==>
              exists i :: LastSepAt(titulo, i) && r == (Strip(titulo[..i]), Strip(titulo[i + |Sep|..]))
  {
    match LastIndexOf(titulo, Sep)
    case Some(i) =>
      var r := (Strip(titulo[..i]), Strip(titulo[i + |Sep|..]));
      assert LastSepAt(titulo, i);
      r
    case None => (Strip(titulo), UnknownOutlet)
  }

  /** The title test of both scripts, `" - " in titulo`, is the case in
      which `SplitTitle` cuts. */
  lemma {:induction false} SplitTitleCutsIffSeparator(titulo: string)
    ensures Contains(titulo, Sep) <==> LastIndexOf(titulo, Sep).Some?
  {
    ContainsIff(titulo, Sep);
    if Contains(titulo, Sep) {
      var i :| OccursAt(titulo, Sep, i);
      assert LastIndexOf(titulo, Sep).Some?;
    }
  }

  /** An occurrence in the suffix `s[k..]` is an occurrence in `s`. */
  lemma OccursInSuffix(s: string, k: nat, m: string, j: int)
    requires k <= |s| && OccursAt(s[k..], m, j)
    ensures OccursAt(s, m, k + j)
  {
    assert s[k..][j..j + |m|] == s[k + j..k + j + |m|];
  }

  /** A piece cut out of `s` at `k` holds no occurrence of `needle` when `s`
      has none from `k` on. */
  lemma NoOccurrenceInside(s: string, m: string, k: nat, needle: string)
    requires OccursAt(s, m, k)
    requires forall q :: k <= q ==> !OccursAt(s, needle, q)
    ensures forall p :: !OccursAt(m, needle, p)
  {
    forall p | 0 <= p && p + |needle| <= |m| ensures !OccursAt(m, needle, p) {
      var a, b := m[p..p + |needle|], s[k + p..k + p + |needle|];
      forall t | 0 <= t < |a| ensures a[t] == b[t] {
        assert m[p + t] == s[k..k + |m|][p + t];
      }
      assert !OccursAt(s, needle, k + p);
    }
  }

  /** "Desconocido" holds no `" - "`. */
  lemma UnknownOutletHasNoSeparator()
    ensures forall p :: !OccursAt(UnknownOutlet, Sep, p)
  {
    var m := UnknownOutlet;
    forall p | 0 <= p && p + |Sep| <= |m| ensures !OccursAt(m, Sep, p) {
      assert m[p..p + |Sep|][1] == m[p + 1];
      assert m[p + 1] != '-';
    }
  }

  /** What follows the last `" - "`, once stripped, holds no `" - "`. */
  lemma StrippedTailHasNoSeparator(titulo: string, i: nat)
    requires LastIndexOf(titulo, Sep) == Some(i)
    ensures var medio := Strip(titulo[i + |Sep|..]); forall p :: !OccursAt(medio, Sep, p)
  {
    var tail := titulo[i + |Sep|..];
    var medio := Strip(tail);
    var j :| OccursAt(tail, medio, j);
    TailPieceHasNoSeparator(titulo, i, medio, j);
  }

  /** Any piece of the text after the last `" - "` holds no `" - "`. */
  lemma TailPieceHasNoSeparator(titulo: string, i: nat, m: string, j: int)
    requires LastIndexOf(titulo, Sep) == Some(i)
    requires i + |Sep| <= |titulo| && OccursAt(titulo[i + |Sep|..], m, j)
    ensures forall p :: !OccursAt(m, Sep, p)
  {
    OccursInSuffix(titulo, i + |Sep|, m, j);
    NoOccurrenceInside(titulo, m, i + |Sep| + j, Sep);
  }

  /** The outlet never contains the separator: a `" - "` inside it would be
      a later occurrence in the title than the one the split used. */
  lemma {:induction false} OutletHasNoSeparator(titulo: string)
    ensures !Contains(SplitTitle(titulo).1, Sep)
  {
    var medio := SplitTitle(titulo).1;
    match LastIndexOf(titulo, Sep)
    case None =>
      assert medio == UnknownOutlet;
      UnknownOutletHasNoSeparator();
      ContainsIff(medio, Sep);
    case Some(i) =>
      assert medio == Strip(titulo[i + |Sep|..]);
      StrippedTailHasNoSeparator(titulo, i);
      ContainsIff(medio, Sep);
  }

  /** `entry.source.get("href", "")` when the entry has a source, else "". */
  function SourceHref(e: FeedEntry): string {
    if e.source.Some? then e.source.value.GetOr("") else ""
  }
}
