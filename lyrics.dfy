/**
 * The deterministic part of the "top lyrics" handler: the title it looks
 * lyrics up by, the artist it credits, the lines of a lyrics text it is
 * willing to quote, and the attribution it prints under a quote.
 */
module Lyrics {
  import opened Text

  /** A slice of an occurrence is the matching slice of the text. */
  lemma SliceOfOccurrence(s: string, r: string, lo: nat, i: nat, n: nat)
    requires OccursAt(s, r, lo) && i + n <= |r|
    ensures s[lo + i..lo + i + n] == r[i..i + n]
  {
    var a := s[lo + i..lo + i + n];
    assert forall k :: 0 <= k < n ==> a[k] == s[lo..lo + |r|][i + k];
  }

  /** A substring of a text free of `pat` is free of `pat`. */
  lemma SubstringFree(s: string, r: string, lo: nat, pat: string)
    requires OccursAt(s, r, lo) && !Contains(s, pat)
    ensures !Contains(r, pat)
  {
    forall i: nat | i + |pat| <= |r| ensures !OccursAt(r, pat, i) {
      SliceOfOccurrence(s, r, lo, i, |pat|);
      assert !OccursAt(s, pat, lo + i);
    }
  }

  /** A substring of a substring is a substring. */
  lemma SubstringTrans(s: string, t: string, lo: nat, r: string, lo': nat)
    requires OccursAt(s, t, lo) && OccursAt(t, r, lo')
    ensures OccursAt(s, r, lo + lo')
  {
    SliceOfOccurrence(s, t, lo, lo', |r|);
  }

  /** What is left before the first `sep` holds no `sep`; a text without `sep` is left whole. */
  lemma BeforeFirstFree(s: string, sep: string)
    requires sep != ""
    ensures !Contains(BeforeFirst(s, sep), sep)
    ensures !Contains(s, sep) ==> BeforeFirst(s, sep) == s
  {
    var r := BeforeFirst(s, sep);
    assert OccursAt(s, r, 0);
    forall i: nat | i + |sep| <= |r| ensures !OccursAt(r, sep, i) {
      if OccursAt(r, sep, i) {
        assert s[i..i + |sep|] == r[i..i + |sep|];
        assert OccursAt(s, sep, i);
      }
    }
  }

  /** The markers a title is cut at, in the order the handler applies them. */
  const Cuts: seq<string> := [" (", " -", " feat", " ft."]

  /** `s` contains none of `cuts`. */
  predicate FreeOf(s: string, cuts: seq<string>)
  {
    forall k :: 0 <= k < |cuts| ==> !Contains(s, cuts[k])
  }

  /**
   * The title cut at the first `k` markers in turn: `.split(marker)[0]` for
   * each. What is left is a prefix of the title, and it is either the whole
   * title or followed in the title by one of those markers.
   */
  function CutAt(name: string, k: nat): (r: string)
    requires k <= |Cuts|
    ensures |r| <= |name| && r == name[..|r|]
    ensures r == name || exists m :: 0 <= m < k && OccursAt(name, Cuts[m], |r|)
  {
    if k == 0 then name
    else
      var t := CutAt(name, k - 1);
      var r := BeforeFirst(t, Cuts[k - 1]);
      assert OccursAt(t, Cuts[k - 1], |r|) ==> OccursAt(name, Cuts[k - 1], |r|) by {
        if OccursAt(t, Cuts[k - 1], |r|) {
          assert OccursAt(name, t, 0);
          SubstringTrans(name, t, 0, Cuts[k - 1], |r|);
        }
      }
      r
  }

  /**
   * `name.split(" (")[0].split(" -")[0].split(" feat")[0].split(" ft.")[0].strip()`:
   * the title without a bracketed suffix, a dash suffix or a featured
   * artist, and without surrounding whitespace.
   */
  function CleanTitle(name: string): (r: string)
    ensures |r| <= |name|
  {
    Strip(CutAt(name, |Cuts|))
  }

  /** Cutting at `sep` keeps a prefix, free of `sep` and of whatever `s` was free of. */
  lemma CutFree(s: string, sep: string, cuts: seq<string>)
    requires sep != "" && FreeOf(s, cuts)
    ensures OccursAt(s, BeforeFirst(s, sep), 0)
    ensures FreeOf(BeforeFirst(s, sep), cuts + [sep])
  {
    var r := BeforeFirst(s, sep);
    BeforeFirstFree(s, sep);
    assert OccursAt(s, r, 0);
    forall k | 0 <= k < |cuts| ensures !Contains(r, cuts[k]) {
      SubstringFree(s, r, 0, cuts[k]);
    }
  }

  /**
   * Cutting at the first `k` markers leaves a prefix of the title free of
   * all of them, which ends where one of them starts unless it is the
   * whole title: the cut falls at the first marker.
   */
  lemma {:induction false} CutAtShape(name: string, k: nat)
    requires k <= |Cuts|
    ensures OccursAt(name, CutAt(name, k), 0)
    ensures FreeOf(CutAt(name, k), Cuts[..k])
    ensures CutAt(name, k) == name || exists m :: 0 <= m < k && OccursAt(name, Cuts[m], |CutAt(name, k)|)
  {
    if k == 0 {
      assert OccursAt(name, name, 0);
    } else {
      var t := CutAt(name, k - 1);
      var r := BeforeFirst(t, Cuts[k - 1]);
      assert CutAt(name, k) == r;
      CutAtShape(name, k - 1);
      CutFree(t, Cuts[k - 1], Cuts[..k - 1]);
      assert Cuts[..k - 1] + [Cuts[k - 1]] == Cuts[..k];
      SubstringTrans(name, t, 0, r, 0);
    }
  }

  /** A substring of a text free of `cuts` is free of them. */
  lemma SubstringFreeOf(s: string, r: string, lo: nat, cuts: seq<string>)
    requires OccursAt(s, r, lo) && FreeOf(s, cuts)
    ensures FreeOf(r, cuts)
  {
    forall k | 0 <= k < |cuts| ensures !Contains(r, cuts[k]) {
      SubstringFree(s, r, lo, cuts[k]);
    }
  }

  /**
   * The cleaned title is a piece of the original title with no whitespace
   * at either end, and none of the four cut markers is left in it. It is
   * the stripped prefix of the title that runs up to a marker, or to the
   * end, and holds no marker: the title cut at its first marker.
   */
  lemma CleanTitleShape(name: string)
    ensures var r := CleanTitle(name);
      && (exists lo: nat :: OccursAt(name, r, lo))
      && (r != "" ==> !IsSpace(r[0]) && !IsSpace(r[|r| - 1]))
      && FreeOf(r, Cuts)
    ensures exists n: nat ::
      && n <= |name| && CleanTitle(name) == Strip(name[..n]) && FreeOf(name[..n], Cuts)
      && (n == |name| || exists m :: 0 <= m < |Cuts| && OccursAt(name, Cuts[m], n))
  {
    var t := CutAt(name, |Cuts|);
    var r := Strip(t);
    CutAtShape(name, |Cuts|);
    assert Cuts[..|Cuts|] == Cuts;
    var lo: nat :| OccursAt(t, r, lo);
    SubstringFreeOf(t, r, lo, Cuts);
    SubstringTrans(name, t, 0, r, lo);
    assert CleanTitle(name) == r && OccursAt(name, r, lo);
    assert name[..|t|] == t;
  }

  /** Cleaning a cleaned title changes nothing. */
  lemma CleanTitleIdempotent(name: string)
    ensures CleanTitle(CleanTitle(name)) == CleanTitle(name)
  {
    var r := CleanTitle(name);
    CleanTitleShape(name);
    CutAtFree(r, |Cuts|);
    StripIdempotent(CutAt(name, |Cuts|));
  }

  /** Cutting a title free of the markers leaves it as it is. */
  lemma {:induction false} CutAtFree(s: string, k: nat)
    requires k <= |Cuts| && FreeOf(s, Cuts)
    ensures CutAt(s, k) == s
  {
    if k > 0 {
      CutAtFree(s, k - 1);
      BeforeFirstFree(s, Cuts[k - 1]);
    }
  }

  /** The artist credited for a track: its first artist, or "Unknown" when it lists none. */
  function CreditedArtist(artistNames: seq<string>): (a: string)
    ensures artistNames == [] ==> a == "Unknown"
    ensures artistNames != [] ==> a == artistNames[0]
  {
    if artistNames == [] then "Unknown" else artistNames[0]
  }

  /**
   * The test one raw lyrics line must pass: once stripped, more than ten
   * characters, not opening with `[` or `(`; and the raw line must not
   * contain "Paroles de".
   */
  predicate Quotable(line: string)
  {
    var t := Strip(line);
    && t != ""
    && |t| > 10
    && !StartsWith(t, "[")
    && !StartsWith(t, "(")
    && !Contains(line, "Paroles de")
  }

  /** `[f(x) for x in xs if keep(x)]`. */
  function Kept<T, U>(xs: seq<T>, keep: T -> bool, f: T -> U): (ys: seq<U>)
    ensures |ys| <= |xs|
  {
    if xs == [] then []
    else
      var init, last := xs[..|xs| - 1], xs[|xs| - 1];
      Kept(init, keep, f) + (if keep(last) then [f(last)] else [])
  }

  /** An element of the comprehension is `f` of some kept element, and each of those is one. */
  lemma {:induction false} KeptMembers<T, U>(xs: seq<T>, keep: T -> bool, f: T -> U, y: U)
    ensures y in Kept(xs, keep, f) <==> exists i :: 0 <= i < |xs| && keep(xs[i]) && y == f(xs[i])
  {
    if xs != [] {
      var init, last := xs[..|xs| - 1], xs[|xs| - 1];
      var tail := if keep(last) then [f(last)] else [];
      assert Kept(xs, keep, f) == Kept(init, keep, f) + tail;
      KeptMembers(init, keep, f, y);
      if y in Kept(init, keep, f) {
        var i :| 0 <= i < |init| && keep(init[i]) && y == f(init[i]);
        assert xs[i] == init[i];
      } else if y in tail {
        assert keep(xs[|xs| - 1]);
      }
      if exists i :: 0 <= i < |xs| && keep(xs[i]) && y == f(xs[i]) {
        var i :| 0 <= i < |xs| && keep(xs[i]) && y == f(xs[i]);
        if i < |init| {
          assert xs[i] == init[i];
        }
      }
    }
  }

  /** The stripped form of every quotable line, in order. */
  function Quotes(lines: seq<string>): (qs: seq<string>)
    ensures |qs| <= |lines|
  {
    Kept(lines, Quotable, Strip)
  }

  /** A quote is exactly the stripped form of some quotable line. */
  lemma QuotesMembers(lines: seq<string>, q: string)
    ensures q in Quotes(lines) <==> exists i :: 0 <= i < |lines| && Quotable(lines[i]) && q == Strip(lines[i])
  {
    KeptMembers(lines, Quotable, Strip, q);
  }

  /** The lines the handler may quote from a lyrics text: `lyrics_text.split("\n")`, filtered. */
  function QuoteLines(text: string): seq<string>
  {
    Quotes(Split(text, '\n'))
  }

  /** The stripped form of a quotable line and what it keeps of the raw line. */
  lemma QuotableShape(line: string)
    requires Quotable(line)
    ensures var q := Strip(line);
      && |q| > 10 && !IsSpace(q[0]) && !IsSpace(q[|q| - 1])
      && q[0] != '[' && q[0] != '('
      && !Contains(q, "Paroles de")
  {
    var q := Strip(line);
    var lo: nat :| OccursAt(line, q, lo);
    SubstringFree(line, q, lo, "Paroles de");
    assert q[0] != '[' by { assert !StartsWith(q, "["); }
    assert q[0] != '(' by { assert !StartsWith(q, "("); }
  }

  /** A substring of a text without `c` has no `c`. */
  lemma SubstringLacks(s: string, r: string, lo: nat, c: char)
    requires OccursAt(s, r, lo) && c !in s
    ensures c !in r
  {
    forall k | 0 <= k < |r| ensures r[k] != c {
      SliceOfOccurrence(s, r, lo, k, 1);
      assert s[lo + k] == r[k..k + 1][0];
    }
  }

  /**
   * Every line the handler may quote is longer than ten characters, has no
   * whitespace at either end, opens with neither `[` nor `(`, holds no line
   * break and does not contain "Paroles de".
   */
  lemma QuoteLinesShape(text: string, q: string)
    requires q in QuoteLines(text)
    ensures |q| > 10 && !IsSpace(q[0]) && !IsSpace(q[|q| - 1])
    ensures q[0] != '[' && q[0] != '('
    ensures '\n' !in q
    ensures !Contains(q, "Paroles de")
  {
    var lines := Split(text, '\n');
    QuotesMembers(lines, q);
    var i :| 0 <= i < |lines| && Quotable(lines[i]) && q == Strip(lines[i]);
    QuotableShape(lines[i]);
    var lo: nat :| OccursAt(lines[i], q, lo);
    SubstringLacks(lines[i], q, lo, '\n');
  }

  /** Every quotable line of the text is offered, stripped. */
  lemma QuoteLinesComplete(text: string, line: string)
    requires line in Split(text, '\n') && Quotable(line)
    ensures Strip(line) in QuoteLines(text)
  {
    var lines := Split(text, '\n');
    var i :| 0 <= i < |lines| && lines[i] == line;
    QuotesMembers(lines, Strip(line));
  }

  /** The attribution under a quote, with the separator as the source file spells it. */
  function AttributionAsWritten(track: string, artist: string): (r: string)
    ensures StartsWith(r, track) && OccursAt(r, " \U{00E2}\U{20AC}\U{201D} ", |track|)
    ensures r[|track| + 5..] == artist
  {
    track + " \U{00E2}\U{20AC}\U{201D} " + artist
  }

  /** The attribution under a quote: track title, an em dash, artist. */
  function Attribution(track: string, artist: string): (r: string)
    ensures StartsWith(r, track) && OccursAt(r, " \U{2014} ", |track|)
    ensures r[|track| + 3..] == artist
  {
    track + " \U{2014} " + artist
  }

  /**
   * The separator in the source is the em dash's UTF-8 bytes read as
   * Windows-1252: the attribution is two characters longer than intended
   * and, for a title and artist without an em dash, shows none.
   */
  lemma AttributionMisencoded(track: string, artist: string)
    ensures |AttributionAsWritten(track, artist)| == |Attribution(track, artist)| + 2
    ensures '\U{2014}' !in track && '\U{2014}' !in artist ==> '\U{2014}' !in AttributionAsWritten(track, artist)
  {
    var sep := " \U{00E2}\U{20AC}\U{201D} ";
    assert '\U{2014}' !in sep;
    assert AttributionAsWritten(track, artist) == track + sep + artist;
  }
}
