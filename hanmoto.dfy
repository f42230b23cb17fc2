/** Splitting a Hanmoto feed title "title - author | publisher" with the
    regular expression `(?P<title>.*)\s-\s(?P<author>.*)\s\|\s(?P<publisher>.*)`
    under `re.match`: greedy groups, so the title takes the last possible
    " - " and then the author the last possible " | "; with DOTALL the groups
    may span newlines, without it they may not (a `\s` separator may still be
    a newline). */
module Hanmoto {

  import opened Results
  import opened Strings

  datatype TitleParts = TitleParts(title: string, author: string, publisher: string)

  /** `\s c \s` at position `i`. */
  predicate Sep(s: string, i: nat, c: char) {
    i + 2 < |s| && IsSpace(s[i]) && s[i + 1] == c && IsSpace(s[i + 2])
  }

  /** The first newline at or after `lo`, or the end of the text. */
  function LineEnd(s: string, lo: nat): (e: nat)
    ensures lo <= |s| ==> lo <= e <= |s|
    ensures lo > |s| ==> e == lo
    ensures forall k :: lo <= k < e && k < |s| ==> s[k] != '\n'
    ensures e < |s| ==> s[e] == '\n'
    decreases |s| - lo
  {
    if lo >= |s| then lo else if s[lo] == '\n' then lo else LineEnd(s, lo + 1)
  }

  /** No newline in `s[lo..hi]`. */
  predicate OneLine(s: string, lo: nat, hi: nat)
    requires lo <= hi <= |s|
  {
    forall k :: lo <= k < hi ==> s[k] != '\n'
  }

  /** The title group ends at `i` and the author group at `j`. */
  predicate Split3(s: string, i: nat, j: nat, dotAll: bool) {
    && Sep(s, i, '-') && i + 3 <= j && Sep(s, j, '|')
    && (dotAll || (OneLine(s, 0, i) && OneLine(s, i + 3, j)))
  }

  /** The largest `j` in `[lo, hi)` with `\s|\s` at `j`. */
  function LastBar(s: string, lo: nat, hi: nat): (r: Option<nat>)
    ensures r.Some? ==> lo <= r.value < hi && Sep(s, r.value, '|')
    ensures r.Some? ==> forall j :: r.value < j < hi ==> !Sep(s, j, '|')
    ensures r.None? ==> forall j :: lo <= j < hi ==> !Sep(s, j, '|')
    decreases hi
  {
    if hi <= lo then None
    else if Sep(s, hi - 1, '|') then Some(hi - 1)
    else LastBar(s, lo, hi - 1)
  }

  /** Where the author group ends, for a title group ending at `i`: the last
      `\s|\s` after " - " (on the same line without DOTALL). */
  function AuthorEnd(s: string, i: nat, dotAll: bool): Option<nat> {
    LastBar(s, i + 3, if dotAll then |s| else LineEnd(s, i + 3) + 1)
  }

  /** The largest title end below `hi` for which an author end exists. */
  function TitleEnd(s: string, hi: nat, dotAll: bool): (r: Option<(nat, nat)>)
    ensures r.Some? ==> r.value.0 + 3 <= r.value.1 && Sep(s, r.value.1, '|')
    decreases hi
  {
    if hi == 0 then None
    else if Sep(s, hi - 1, '-') && AuthorEnd(s, hi - 1, dotAll).Some? then
      Some((hi - 1, AuthorEnd(s, hi - 1, dotAll).value))
    else TitleEnd(s, hi - 1, dotAll)
  }

  /** The group boundaries `re.match` settles on, if it matches. */
  function MatchTitle(s: string, dotAll: bool): (r: Option<(nat, nat)>)
    ensures r.Some? ==> r.value.0 + 3 <= r.value.1 && r.value.1 + 3 <= |s|
  {
    TitleEnd(s, if dotAll then |s| else LineEnd(s, 0) + 1, dotAll)
  }

  /** `reg.match(raw_title).groupdict()`; no match is `None.groupdict()`, an
      AttributeError. */
  function ParseTitle(raw: string, dotAll: bool): Result<TitleParts> {
    match MatchTitle(raw, dotAll)
    case None => Err(AttributeError)
    case Some((i, j)) =>
      Ok(TitleParts(raw[..i], raw[i + 3..j], if dotAll then raw[j + 3..] else raw[j + 3..LineEnd(raw, j + 3)]))
  }

  lemma OneLineBelow(s: string, lo: nat, hi: nat)
    requires lo <= hi <= |s|
    ensures OneLine(s, lo, hi) <==> hi <= LineEnd(s, lo)
  {
    if hi > LineEnd(s, lo) {
      assert s[LineEnd(s, lo)] == '\n';
    }
  }

  /** An author end found for title end `i` is a valid split, and it is the
      largest valid one for that `i`. */
  lemma AuthorEndSpec(s: string, i: nat, dotAll: bool)
    requires Sep(s, i, '-') && (dotAll || OneLine(s, 0, i))
    ensures AuthorEnd(s, i, dotAll).Some? ==> Split3(s, i, AuthorEnd(s, i, dotAll).value, dotAll)
    ensures forall j: nat :: Split3(s, i, j, dotAll) ==> AuthorEnd(s, i, dotAll).Some? && j <= AuthorEnd(s, i, dotAll).value
  {
    var hi := if dotAll then |s| else LineEnd(s, i + 3) + 1;
    if AuthorEnd(s, i, dotAll).Some? && !dotAll {
      OneLineBelow(s, i + 3, AuthorEnd(s, i, dotAll).value);
    }
    forall j: nat | Split3(s, i, j, dotAll)
      ensures AuthorEnd(s, i, dotAll).Some? && j <= AuthorEnd(s, i, dotAll).value
    {
      if !dotAll {
        OneLineBelow(s, i + 3, j);
      }
      assert i + 3 <= j < hi;
    }
  }

  /** The title end found is below `hi`, valid with its author end, and
      lexicographically the largest valid pair with title end below `hi`. */
  lemma {:induction false} TitleEndSpec(s: string, hi: nat, dotAll: bool)
    requires dotAll || hi <= LineEnd(s, 0) + 1
    ensures TitleEnd(s, hi, dotAll).Some? ==>
              var (i, j) := TitleEnd(s, hi, dotAll).value;
              i < hi && Split3(s, i, j, dotAll)
    ensures forall i: nat, j: nat :: i < hi && Split3(s, i, j, dotAll) ==>
              TitleEnd(s, hi, dotAll).Some? &&
              var (i', j') := TitleEnd(s, hi, dotAll).value;
              i < i' || (i == i' && j <= j')
    decreases hi
  {
    if hi > 0 {
      var i := hi - 1;
      if Sep(s, i, '-') && (dotAll || OneLine(s, 0, i)) {
        AuthorEndSpec(s, i, dotAll);
      }
      if !dotAll && Sep(s, i, '-') {
        OneLineBelow(s, 0, i);
      }
      TitleEndSpec(s, hi - 1, dotAll);
    }
  }

  /** `re.match` matches exactly when some split is valid, and then its
      groups end at the lexicographically largest valid split: the title is
      as long as possible, then the author. */
  lemma MatchTitleGreedy(s: string, dotAll: bool)
    ensures MatchTitle(s, dotAll).Some? ==>
              var (i, j) := MatchTitle(s, dotAll).value;
              Split3(s, i, j, dotAll)
    ensures forall i: nat, j: nat :: Split3(s, i, j, dotAll) ==>
              MatchTitle(s, dotAll).Some? &&
              var (i', j') := MatchTitle(s, dotAll).value;
              i < i' || (i == i' && j <= j')
  {
    var hi := if dotAll then |s| else LineEnd(s, 0) + 1;
    TitleEndSpec(s, hi, dotAll);
    forall i: nat, j: nat | Split3(s, i, j, dotAll) ensures i < hi {
      if !dotAll {
        OneLineBelow(s, 0, i);
      }
    }
  }

  lemma SliceSplit(s: string, a: nat, b: nat, e: nat)
    requires a <= b <= e <= |s|
    ensures s[a..e] == s[a..b] + s[b..e]
  {
    forall k | 0 <= k < e - a ensures s[a..e][k] == (s[a..b] + s[b..e])[k] {
      if k >= b - a {
        assert (s[a..b] + s[b..e])[k] == s[b..e][k - (b - a)];
      }
    }
  }

  /** Cutting a prefix of `s` at four points. */
  lemma SliceFive(s: string, a: nat, b: nat, c: nat, d: nat, e: nat)
    requires a <= b <= c <= d <= e <= |s|
    ensures s[..e] == s[..a] + s[a..b] + s[b..c] + s[c..d] + s[d..e]
  {
    SliceSplit(s, c, d, e);
    SliceSplit(s, b, c, e);
    SliceSplit(s, a, b, e);
    SliceSplit(s, 0, a, e);
    assert s[..e] == s[0..e] && s[..a] == s[0..a];
  }

  /** With DOTALL the parts and the separators rebuild the raw title, each
      separator being a whitespace, the dash or bar, and a whitespace. */
  lemma ParseTitleRebuilds(raw: string)
    requires ParseTitle(raw, true).Ok?
    ensures var p := ParseTitle(raw, true).value;
            var i := |p.title|;
            var j := i + 3 + |p.author|;
            && Sep(raw, i, '-') && Sep(raw, j, '|')
            && raw == p.title + raw[i..i + 3] + p.author + raw[j..j + 3] + p.publisher
  {
    MatchTitleGreedy(raw, true);
    var (i, j) := MatchTitle(raw, true).value;
    SliceFive(raw, i, i + 3, j, j + 3, |raw|);
    assert raw[..|raw|] == raw;
  }

  /** Without DOTALL no part holds a newline. */
  lemma ParseTitleOneLine(raw: string)
    requires ParseTitle(raw, false).Ok?
    ensures var p := ParseTitle(raw, false).value;
            '\n' !in p.title && '\n' !in p.author && '\n' !in p.publisher
  {
    MatchTitleGreedy(raw, false);
    var (i, j) := MatchTitle(raw, false).value;
    var e := LineEnd(raw, j + 3);
    var p := ParseTitle(raw, false).value;
    assert p.title == raw[..i] && p.author == raw[i + 3..j] && p.publisher == raw[j + 3..e];
    assert forall k :: 0 <= k < |p.title| ==> p.title[k] == raw[k];
    assert forall k :: 0 <= k < |p.author| ==> p.author[k] == raw[i + 3 + k];
    assert forall k :: 0 <= k < |p.publisher| ==> p.publisher[k] == raw[j + 3 + k];
  }

  /** Without DOTALL the parts and separators rebuild the raw title up to the
      first newline after the publisher, or up to its end. */
  lemma ParseTitleLineRebuilds(raw: string)
    requires ParseTitle(raw, false).Ok?
    ensures var p := ParseTitle(raw, false).value;
            var i := |p.title|;
            var j := i + 3 + |p.author|;
            var e := j + 3 + |p.publisher|;
            && Sep(raw, i, '-') && Sep(raw, j, '|') && e <= |raw|
            && raw[..e] == p.title + raw[i..i + 3] + p.author + raw[j..j + 3] + p.publisher
            && (e == |raw| || raw[e] == '\n')
  {
    MatchTitleGreedy(raw, false);
    var (i, j) := MatchTitle(raw, false).value;
    var e := LineEnd(raw, j + 3);
    SliceFive(raw, i, i + 3, j, j + 3, e);
  }
}
