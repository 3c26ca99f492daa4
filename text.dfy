/** String operations the ingestion scripts rely on, stated once and shared:
    Python's `needle in hay`, `str.strip()`, `str.rsplit(sep, 1)`,
    `str.split(sep)`, and the `" ".join(s.split())` shape that both
    normalisers end with. */
module Text {

  datatype Option<+T> = None | Some(value: T) {
    /** Python's `x or default` on an optional value. */
    function GetOr(default: T): T {
      if Some? then value else default
    }
  }

  /** The result of a Python call that may raise: the value it returned, or
      the message of the exception it raised. */
  datatype Outcome<+T> = Returned(value: T) | Raised(error: string)

  // ---------------------------------------------------------------------------
  // Substring search
  // ---------------------------------------------------------------------------

  /** `needle` sits in `hay` starting at index `i`. */
  predicate OccursAt(hay: string, needle: string, i: int) {
    0 <= i && i + |needle| <= |hay| && hay[i..i + |needle|] == needle
  }

  /** Python's `needle in hay` on strings. */
  function Contains(hay: string, needle: string): bool
    decreases |hay|
  {
    if needle <= hay then true
    else if hay == [] then false
    else Contains(hay[1..], needle)
  }

  /** `Contains` holds exactly when the needle occurs at some index. */
  lemma {:induction false} ContainsIff(hay: string, needle: string)
    ensures Contains(hay, needle) <==> exists i :: OccursAt(hay, needle, i)
    decreases |hay|
  {
    if needle <= hay {
      assert OccursAt(hay, needle, 0);
    } else if hay == [] {
      assert forall i :: !OccursAt(hay, needle, i);
    } else {
      assert !OccursAt(hay, needle, 0);
      ContainsIff(hay[1..], needle);
      if exists i :: OccursAt(hay[1..], needle, i) {
        var i :| OccursAt(hay[1..], needle, i);
        assert hay[1..][i..i + |needle|] == hay[i + 1..i + 1 + |needle|];
        assert OccursAt(hay, needle, i + 1);
      }
      if exists i :: OccursAt(hay, needle, i) {
        var i :| OccursAt(hay, needle, i);
        assert i != 0;
        assert hay[1..][i - 1..i - 1 + |needle|] == hay[i..i + |needle|];
        assert OccursAt(hay[1..], needle, i - 1);
      }
    }
  }

  /** Index of the last occurrence of `sep` in `s`: where `s.rsplit(sep, 1)`
      cuts. */
  function LastIndexOf(s: string, sep: string): (r: Option<nat>)
    ensures r.Some? ==> OccursAt(s, sep, r.value)
    ensures r.Some? ==> forall j :: r.value < j ==> !OccursAt(s, sep, j)
    ensures r.None? ==> forall j :: !OccursAt(s, sep, j)
  {
    LastIndexFrom(s, sep, |s|)
  }

  /** Searches the positions `i, i - 1, ..., 0` for `sep`. */
  function LastIndexFrom(s: string, sep: string, i: nat): (r: Option<nat>)
    requires i <= |s|
    requires forall j :: i < j ==> !OccursAt(s, sep, j)
    ensures r.Some? ==> r.value <= i && OccursAt(s, sep, r.value)
    ensures r.Some? ==> forall j :: r.value < j ==> !OccursAt(s, sep, j)
    ensures r.None? ==> forall j :: !OccursAt(s, sep, j)
    decreases i
  {
    if OccursAt(s, sep, i) then Some(i)
    else if i == 0 then None
    else LastIndexFrom(s, sep, i - 1)
  }

  // ---------------------------------------------------------------------------
  // Whitespace and strip()
  // ---------------------------------------------------------------------------

  /** Python's `str.isspace()` on one character. */
  predicate IsSpace(c: char) {
    ('\t' <= c <= '\r') || ('\U{1C}' <= c <= '\U{1F}') || c == ' '
    || c == '\U{85}' || c == '\U{A0}' || c == '\U{1680}'
    || ('\U{2000}' <= c <= '\U{200A}') || c == '\U{2028}' || c == '\U{2029}'
    || c == '\U{202F}' || c == '\U{205F}' || c == '\U{3000}'
  }

  predicate AllSpace(s: string) {
    forall k :: 0 <= k < |s| ==> IsSpace(s[k])
  }

  function LeadingSpaces(s: string): (n: nat)
    ensures n <= |s| && AllSpace(s[..n])
    ensures forall k :: 0 <= k < n ==> IsSpace(s[k])
    ensures n < |s| ==> !IsSpace(s[n])
  {
    if s != [] && IsSpace(s[0]) then
      var n := 1 + LeadingSpaces(s[1..]);
      assert s[..n] == [s[0]] + s[1..][..n - 1];
      n
    else 0
  }

  function TrailingSpaces(s: string): (n: nat)
    ensures n <= |s| && AllSpace(s[|s| - n..])
    ensures forall k :: |s| - n <= k < |s| ==> IsSpace(s[k])
    ensures n < |s| ==> !IsSpace(s[|s| - 1 - n])
  {
    var n := SpacesBefore(s, |s|);
    var tail := s[|s| - n..];
    assert forall k :: 0 <= k < |tail| ==> tail[k] == s[|s| - n + k];
    n
  }

  /** The number of whitespace characters just before index `e`. */
  function SpacesBefore(s: string, e: nat): (n: nat)
    requires e <= |s|
    ensures n <= e
    ensures forall k :: e - n <= k < e ==> IsSpace(s[k])
    ensures n < e ==> !IsSpace(s[e - 1 - n])
  {
    if e > 0 && IsSpace(s[e - 1]) then 1 + SpacesBefore(s, e - 1) else 0
  }

  /** Python's `s.strip()`: `s` with its leading and trailing whitespace
      removed, and only that. */
  function Strip(s: string): (r: string)
    ensures exists i :: OccursAt(s, r, i) && AllSpace(s[..i]) && AllSpace(s[i + |r|..])
    ensures r != [] ==> !IsSpace(r[0]) && !IsSpace(r[|r| - 1])
  {
    StripCut(s);
    var lead := LeadingSpaces(s);
    var end := if lead == |s| then |s| else |s| - TrailingSpaces(s);
    var r := s[lead..end];
    assert OccursAt(s, r, lead);
    assert r != [] ==> r[0] == s[lead] && r[|r| - 1] == s[end - 1];
    r
  }

  /** Where `Strip` cuts: when some character is not whitespace, the
      trailing whitespace starts after the first such character and follows a
      non-space. */
  lemma StripCut(s: string)
    ensures LeadingSpaces(s) < |s| ==>
              LeadingSpaces(s) < |s| - TrailingSpaces(s) && !IsSpace(s[|s| - 1 - TrailingSpaces(s)])
  {
    var lead := LeadingSpaces(s);
    if lead < |s| {
      assert !IsSpace(s[lead]);
    }
  }

  // ---------------------------------------------------------------------------
  // split(sep) with a one-character separator
  // ---------------------------------------------------------------------------

  /** Python's `s.split(c)`: the fields between occurrences of `c`, always at
      least one. */
  function SplitOn(s: string, c: char): (fields: seq<string>)
    ensures |fields| >= 1
    ensures forall k :: 0 <= k < |fields| ==> c !in fields[k]
  {
    if s == [] then [""]
    else
      var rest := SplitOn(s[1..], c);
      if s[0] == c then [""] + rest
      else [[s[0]] + rest[0]] + rest[1..]
  }

  /** Python's `c.join(fields)`. */
  function JoinWith(fields: seq<string>, c: char): string {
    if fields == [] then ""
    else if |fields| == 1 then fields[0]
    else fields[0] + [c] + JoinWith(fields[1..], c)
  }

  /** Splitting loses nothing: joining the fields back gives the input. */
  lemma {:induction false} SplitOnJoin(s: string, c: char)
    ensures JoinWith(SplitOn(s, c), c) == s
  {
    if s != [] {
      var rest := SplitOn(s[1..], c);
      SplitOnJoin(s[1..], c);
      if s[0] == c {
        assert SplitOn(s, c) == [""] + rest;
        assert ([""] + rest)[1..] == rest;
      } else {
        var fields := [[s[0]] + rest[0]] + rest[1..];
        assert SplitOn(s, c) == fields;
        if |rest| == 1 {
          assert fields == [[s[0]] + rest[0]];
        } else {
          assert fields[1..] == rest[1..];
          assert JoinWith(rest, c) == rest[0] + [c] + JoinWith(rest[1..], c);
        }
      }
    }
  }

  /** The separator occurs exactly when the text splits into two fields or
      more. */
  lemma {:induction false} SplitOnSeveral(s: string, c: char)
    ensures |SplitOn(s, c)| >= 2 <==> c in s
  {
    if s != [] {
      SplitOnSeveral(s[1..], c);
      assert c in s <==> s[0] == c || c in s[1..];
    }
  }

  /** Stripping removes only whitespace: a character that is not whitespace
      occurs in the stripped text exactly when it occurs in the text. */
  lemma StripKeeps(s: string, c: char)
    requires !IsSpace(c)
    ensures c in Strip(s) <==> c in s
  {
    var r := Strip(s);
    var i :| OccursAt(s, r, i) && AllSpace(s[..i]) && AllSpace(s[i + |r|..]);
    KeepsBetweenSpaces(s, r, i, c);
  }

  /** A non-space character occurs in a piece of `s` with only whitespace
      around it exactly when it occurs in `s`. */
  lemma KeepsBetweenSpaces(s: string, r: string, i: int, c: char)
    requires !IsSpace(c)
    requires OccursAt(s, r, i) && AllSpace(s[..i]) && AllSpace(s[i + |r|..])
    ensures c in r <==> c in s
  {
    assert forall k :: 0 <= k < i ==> s[..i][k] == s[k];
    assert forall k :: i + |r| <= k < |s| ==> s[i + |r|..][k - i - |r|] == s[k];
    forall k | 0 <= k < |s| && s[k] == c
      ensures c in r
    {
      assert r[k - i] == c;
    }
    forall k | 0 <= k < |r| && r[k] == c
      ensures c in s
    {
      assert s[i + k] == c;
    }
  }

  /** A text without the separator is a single field. */
  lemma {:induction false} SplitOnNoSeparator(a: string, c: char)
    requires c !in a
    ensures SplitOn(a, c) == [a]
  {
    if a != [] {
      SplitOnNoSeparator(a[1..], c);
      assert [a[0]] + a[1..] == a;
    }
  }

  /** A leading character other than the separator joins the first field. */
  lemma SplitOnCons(x: char, s: string, c: char)
    requires x != c
    ensures var rest := SplitOn(s, c);
            SplitOn([x] + s, c) == [[x] + rest[0]] + rest[1..]
  {
    assert ([x] + s)[1..] == s;
  }

  /** A separator-free field followed by the separator splits off first. */
  lemma {:induction false} SplitOnField(a: string, rest: string, c: char)
    requires c !in a
    ensures SplitOn(a + [c] + rest, c) == [a] + SplitOn(rest, c)
  {
    if a == [] {
      assert ([c] + rest)[1..] == rest;
    } else {
      assert (a + [c] + rest)[1..] == a[1..] + [c] + rest;
      SplitOnField(a[1..], rest, c);
      assert [a[0]] + a[1..] == a;
    }
  }

  /** Joining separator-free fields and splitting again gives the fields
      back. */
  lemma {:induction false} JoinSplitOn(fields: seq<string>, c: char)
    requires |fields| >= 1
    requires forall k :: 0 <= k < |fields| ==> c !in fields[k]
    ensures SplitOn(JoinWith(fields, c), c) == fields
  {
    if |fields| == 1 {
      SplitOnNoSeparator(fields[0], c);
    } else {
      JoinSplitOn(fields[1..], c);
      SplitOnField(fields[0], JoinWith(fields[1..], c), c);
      assert [fields[0]] + fields[1..] == fields;
    }
  }

  /** A text ending in the separator splits into at least two fields, the
      last of them empty. */
  lemma {:induction false} SplitOnTrailing(s: string, c: char)
    ensures var fields := SplitOn(s + [c], c);
            |fields| >= 2 && fields[|fields| - 1] == ""
  {
    if s == [] {
      assert SplitOn([c], c) == [""] + SplitOn([], c);
    } else {
      assert (s + [c])[1..] == s[1..] + [c];
      SplitOnTrailing(s[1..], c);
    }
  }

  // ---------------------------------------------------------------------------
  // Words: the " ".join(s.split()) shape of the normalisers
  // ---------------------------------------------------------------------------

  /** The characters a normalised text keeps: `[a-z0-9]`. */
  predicate IsWordChar(c: char) {
    'a' <= c <= 'z' || '0' <= c <= '9'
  }

  predicate IsWord(w: string) {
    w != [] && forall k :: 0 <= k < |w| ==> IsWordChar(w[k])
  }

  predicate AllWords(ws: seq<string>) {
    forall k :: 0 <= k < |ws| ==> IsWord(ws[k])
  }

  /** A normalised text: only `[a-z0-9 ]`, no leading or trailing space, and
      never two spaces in a row. */
  predicate IsNormalized(t: string) {
    && (forall k :: 0 <= k < |t| ==> IsWordChar(t[k]) || t[k] == ' ')
    && (t != [] ==> t[0] != ' ' && t[|t| - 1] != ' ')
    && (forall k :: 0 < k < |t| && t[k] == ' ' ==> t[k - 1] != ' ')
  }

  /** Length of the run of word characters at the start of `s`. */
  function WordLen(s: string): (n: nat)
    ensures n <= |s|
    ensures forall k :: 0 <= k < n ==> IsWordChar(s[k])
    ensures n < |s| ==> !IsWordChar(s[n])
  {
    if s == [] || !IsWordChar(s[0]) then 0 else 1 + WordLen(s[1..])
  }

  /** The maximal runs of word characters of `s`, in order; every other
      character separates. On a normalised text this is Python's `split()`. */
  function Words(s: string): (ws: seq<string>)
    ensures AllWords(ws)
    decreases |s|
  {
    if s == [] then []
    else if !IsWordChar(s[0]) then Words(s[1..])
    else
      var n := WordLen(s);
      [s[..n]] + Words(s[n..])
  }

  /** Python's `" ".join(ws)`. */
  function Join(ws: seq<string>): string {
    if ws == [] then ""
    else if |ws| == 1 then ws[0]
    else ws[0] + " " + Join(ws[1..])
  }

  /** Joining words with single spaces gives a normalised text. */
  lemma {:induction false} JoinIsNormalized(ws: seq<string>)
    requires AllWords(ws)
    ensures IsNormalized(Join(ws))
  {
    if |ws| > 1 {
      JoinIsNormalized(ws[1..]);
      var w, j := ws[0], Join(ws[1..]);
      assert IsWord(w);
      assert j != [] by {
        assert IsWord(ws[1]);
        if |ws[1..]| > 1 {
          assert Join(ws[1..]) == ws[1] + " " + Join(ws[2..]) by { assert ws[1..][1..] == ws[2..]; }
        }
      }
      var t := w + " " + j;
      assert Join(ws) == t;
      forall k | 0 < k < |t| && t[k] == ' ' ensures t[k - 1] != ' ' {
        if k > |w| {
          assert t[k] == j[k - |w| - 1];
          if k - 1 > |w| {
            assert t[k - 1] == j[k - |w| - 2];
          }
        }
      }
    } else if |ws| == 1 {
      assert IsWord(ws[0]);
    }
  }

  /** The word run at the front of `w + rest` is all of `w` when `rest` starts
      with a separator. */
  lemma {:induction false} WordLenOfWord(w: string, rest: string)
    requires forall k :: 0 <= k < |w| ==> IsWordChar(w[k])
    requires rest != [] ==> !IsWordChar(rest[0])
    ensures WordLen(w + rest) == |w|
  {
    if w != [] {
      assert (w + rest)[1..] == w[1..] + rest;
      WordLenOfWord(w[1..], rest);
    }
  }

  /** Round trip: splitting joined words gives the words back. */
  lemma {:induction false} WordsOfJoin(ws: seq<string>)
    requires AllWords(ws)
    ensures Words(Join(ws)) == ws
  {
    if ws == [] {
    } else if |ws| == 1 {
      var w := ws[0];
      assert IsWord(w);
      WordLenOfWord(w, "");
      assert w + "" == w;
      assert w[|w|..] == [];
    } else {
      var w, j := ws[0], Join(ws[1..]);
      assert IsWord(w);
      var t := w + " " + j;
      assert Join(ws) == t;
      assert t == w + (" " + j);
      WordLenOfWord(w, " " + j);
      assert t[..|w|] == w;
      assert t[|w|..] == " " + j;
      assert (" " + j)[1..] == j;
      WordsOfJoin(ws[1..]);
    }
  }

  /** A normalised text is the single-space join of its own words. */
  lemma {:induction false} JoinOfWords(t: string)
    requires IsNormalized(t)
    ensures Join(Words(t)) == t
    decreases |t|
  {
    if t != [] {
      assert IsWordChar(t[0]);
      var n := WordLen(t);
      if n == |t| {
        JoinOfOneWord(t);
      } else {
        SpaceAfterWord(t, n);
        SuffixNormalized(t, n + 1);
        JoinOfWords(t[n + 1..]);
        JoinAfterFirstWord(t, n);
      }
    }
  }

  /** A text that is one word is its own join. */
  lemma JoinOfOneWord(t: string)
    requires t != [] && IsWordChar(t[0]) && WordLen(t) == |t|
    ensures Join(Words(t)) == t
  {
    assert t[|t|..] == [];
    assert Words(t) == [t[..|t|]];
  }

  /** The induction step of `JoinOfWords`: the first word, a space, and the
      rest, which is already the join of its words. */
  lemma JoinAfterFirstWord(t: string, n: nat)
    requires IsNormalized(t) && t != [] && n == WordLen(t) && n < |t|
    requires Join(Words(t[n + 1..])) == t[n + 1..]
    ensures Join(Words(t)) == t
  {
    var w := t[..n];
    var u := t[n + 1..];
    SpaceAfterWord(t, n);
    WordsAtWord(t);
    WordsSkipSpace(t[n..]);
    assert t[n..][1..] == u;
    WordsAtWord(u);
    JoinCons(w, Words(u));
    SplitAtSpace(t, n);
  }

  /** A text starting with a word character splits off its first word. */
  lemma WordsAtWord(t: string)
    requires t != [] && IsWordChar(t[0])
    ensures Words(t) == [t[..WordLen(t)]] + Words(t[WordLen(t)..])
  {
  }

  /** Joining a word in front of a non-empty list puts a space between. */
  lemma JoinCons(w: string, ws: seq<string>)
    requires ws != []
    ensures Join([w] + ws) == w + " " + Join(ws)
  {
    assert ([w] + ws)[1..] == ws;
  }

  /** A text with a space at `n` is the part before, the space and the part
      after. */
  lemma SplitAtSpace(t: string, n: nat)
    requires n < |t| && t[n] == ' '
    ensures t == t[..n] + " " + t[n + 1..]
  {
  }

  /** In a normalised text, a first word that is not the whole text is
      followed by one space and then a word character. */
  lemma SpaceAfterWord(t: string, n: nat)
    requires IsNormalized(t) && t != [] && n == WordLen(t) && n < |t|
    ensures n + 1 < |t| && t[n] == ' ' && IsWordChar(t[n + 1])
  {
    assert IsWordChar(t[0]);
  }

  /** The part of a normalised text after one of its spaces is normalised. */
  lemma SuffixNormalized(t: string, m: nat)
    requires IsNormalized(t) && 0 < m < |t| && t[m - 1] == ' '
    ensures IsNormalized(t[m..])
  {
    var u := t[m..];
    forall k | 0 < k < |u| && u[k] == ' ' ensures u[k - 1] != ' ' {
      assert u[k] == t[m + k] && u[k - 1] == t[m + k - 1];
    }
  }

  /** A leading separator adds no word. */
  lemma WordsSkipSpace(s: string)
    requires s != [] && s[0] == ' '
    ensures Words(s) == Words(s[1..])
  {
  }

  /** `re.sub(r'\s+', ' ', s).strip()` applied to a text in which every
      character outside `[a-z0-9]` has already become a separator. */
  function Squeeze(s: string): (t: string)
    ensures IsNormalized(t)
    ensures Words(t) == Words(s)
  {
    JoinIsNormalized(Words(s));
    WordsOfJoin(Words(s));
    Join(Words(s))
  }

  /** Squeezing a normalised text leaves it unchanged. */
  lemma SqueezeNormalized(t: string)
    requires IsNormalized(t)
    ensures Squeeze(t) == t
  {
    JoinOfWords(t);
  }

  // ---------------------------------------------------------------------------
  // Case and accent folding, and str() of an integer
  // ---------------------------------------------------------------------------

  /** `c.lower()` for an ASCII character. */
  function LowerAscii(c: char): char {
    if 'A' <= c <= 'Z' then (c as int + 32) as char else c
  }

  /** The letter that `lower()`, NFD decomposition and the removal of the
      combining marks leave of a Latin-1 letter carrying a diacritic (`\U{E1}`
      and `\U{C1}` give `a`, `\U{F1}` gives `n`, `\U{E7}` gives `c`); None for
      every other character, including the Latin-1 letters that do not
      decompose, such as `\U{DF}` or `\U{F8}`. */
  function Deaccent(c: char): Option<char> {
    if '\U{C0}' <= c <= '\U{C5}' || '\U{E0}' <= c <= '\U{E5}' then Some('a')
    else if c == '\U{C7}' || c == '\U{E7}' then Some('c')
    else if '\U{C8}' <= c <= '\U{CB}' || '\U{E8}' <= c <= '\U{EB}' then Some('e')
    else if '\U{CC}' <= c <= '\U{CF}' || '\U{EC}' <= c <= '\U{EF}' then Some('i')
    else if c == '\U{D1}' || c == '\U{F1}' then Some('n')
    else if '\U{D2}' <= c <= '\U{D6}' || '\U{F2}' <= c <= '\U{F6}' then Some('o')
    else if '\U{D9}' <= c <= '\U{DC}' || '\U{F9}' <= c <= '\U{FC}' then Some('u')
    else if c == '\U{DD}' || c == '\U{FD}' || c == '\U{FF}' then Some('y')
    else None
  }

  /** The combining diacritical marks (category Mn) that NFD produces. */
  predicate IsCombiningMark(c: char) {
    '\U{300}' <= c <= '\U{36F}'
  }

  /** A decimal digit. */
  predicate IsDigit(c: char) {
    '0' <= c <= '9'
  }

  /** The number a string of decimal digits denotes, most significant digit
      first; the empty string denotes 0. */
  function DigitsValue(s: string): nat
    requires forall k :: 0 <= k < |s| ==> IsDigit(s[k])
  {
    if s == [] then 0
    else
      assert IsDigit(s[|s| - 1]);
      DigitsValue(s[..|s| - 1]) * 10 + (s[|s| - 1] as int - '0' as int)
  }

  /** Python's `str(n)` for a non-negative integer: the shortest decimal
      numeral of `n`. */
  function NatToString(n: nat): (s: string)
    ensures |s| >= 1 && forall k :: 0 <= k < |s| ==> IsDigit(s[k])
    ensures DigitsValue(s) == n
    ensures s[0] == '0' <==> n == 0
    ensures n == 0 ==> s == "0"
  {
    var d := ['0' + (n % 10) as char];
    if n < 10 then d
    else
      var p := NatToString(n / 10);
      assert (p + d)[..|p + d| - 1] == p;
      p + d
  }

  /** A numeral has no comma. */
  lemma NumeralHasNoComma(n: int)
    ensures ',' !in IntToString(n)
  {
  }

  /** Python's `str(n)`: a minus sign before the numeral of `-n` when `n` is
      negative. */
  function IntToString(n: int): (s: string)
    ensures n >= 0 ==> (forall k :: 0 <= k < |s| ==> IsDigit(s[k])) && DigitsValue(s) == n
    ensures n < 0 ==> |s| >= 2 && s[0] == '-' && (forall k :: 1 <= k < |s| ==> IsDigit(s[k]))
                      && DigitsValue(s[1..]) == -n
  {
    if n < 0 then
      var p := NatToString(-n);
      assert ("-" + p)[1..] == p;
      "-" + p
    else NatToString(n)
  }
}
