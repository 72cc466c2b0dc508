/**
 * The genres page (app/genres/page.tsx): every movie's genre text is cut at commas, each
 * piece trimmed, and each non-empty piece counted under its own key; the keys are then
 * listed by descending count.
 */
module Genres {
  import opened JsText
  import Movies

  /** The number of commas in `s`. */
  function Commas(s: string): nat {
    if |s| == 0 then 0 else (if s[0] == ',' then 1 else 0) + Commas(s[1..])
  }

  /** `s.split(/,\s*\/)`: cut at every comma, dropping the comma and the white space that
      follows it. There is one piece more than there are commas; text without a comma is
      its own single piece, and no piece after the first starts with white space. */
  function SplitOnCommaSpace(s: string): (parts: seq<string>)
    ensures |parts| == Commas(s) + 1
    ensures ',' !in s ==> parts == [s]
    ensures forall i :: 0 <= i < |parts| ==> ',' !in parts[i]
    ensures parts[0] <= s
    ensures forall p :: p in parts[1..] ==> p == "" || !IsSpace(p[0])
    decreases |s|
  {
    if ',' !in s then
      NoCommas(s);
      [s]
    else
      var i := IndexOfChar(s, ',');
      CommasAfterFirst(s, i);
      CommasTrimStart(s[i + 1..]);
      var rest := SplitOnCommaSpace(TrimStart(s[i + 1..]));
      var parts := [s[..i]] + rest;
      assert parts[1..] == rest;
      parts
  }

  lemma {:induction false} NoCommas(s: string)
    requires ',' !in s
    ensures Commas(s) == 0
    decreases |s|
  {
    if |s| > 0 {
      assert s[0] in s;
      assert forall c :: c in s[1..] ==> c in s;
      NoCommas(s[1..]);
    }
  }

  /** Everything up to the first comma holds no comma. */
  lemma {:induction false} CommasAfterFirst(s: string, i: nat)
    requires i < |s| && s[i] == ',' && ',' !in s[..i]
    ensures Commas(s) == 1 + Commas(s[i + 1..])
    decreases i
  {
    if i > 0 {
      assert s[0] == s[..i][0] && s[0] != ',';
      assert s[1..][..i - 1] == s[1..i];
      assert forall c :: c in s[1..i] ==> c in s[..i];
      assert s[1..][i..] == s[i + 1..];
      CommasAfterFirst(s[1..], i - 1);
    }
  }

  /** Leading white space holds no comma. */
  lemma {:induction false} CommasTrimStart(s: string)
    ensures Commas(TrimStart(s)) == Commas(s)
    decreases |s|
  {
    if |s| > 0 && IsSpace(s[0]) {
      assert !IsSpace(',');
      assert s[0] != ',';
      CommasTrimStart(s[1..]);
    }
  }

  /** Splitting undoes `items.join(", ")` for comma-free items of which none but the first
      starts with white space. */
  lemma {:induction false} SplitJoinRoundTrip(items: seq<string>)
    requires |items| >= 1
    requires forall i :: 0 <= i < |items| ==> ',' !in items[i]
    requires forall i :: 1 <= i < |items| ==> items[i] == "" || !IsSpace(items[i][0])
    ensures SplitOnCommaSpace(Join(items, ", ")) == items
    decreases |items|
  {
    if |items| == 1 {
      assert Join(items, ", ") == items[0];
    } else {
      var a, rest := items[0], items[1..];
      var j := Join(rest, ", ");
      assert Join(items, ", ") == a + (", " + j);
      assert rest[0] == items[1];
      JoinStart(rest);
      SplitStep(a, j);
      SplitJoinRoundTrip(rest);
      assert items == [a] + rest;
    }
  }

  /** One comma and the space after it are consumed, and splitting goes on after them. */
  lemma SplitStep(a: string, j: string)
    requires ',' !in a
    requires j == "" || !IsSpace(j[0])
    ensures SplitOnCommaSpace(a + (", " + j)) == [a] + SplitOnCommaSpace(j)
  {
    FirstCommaAt(a, j);
    AroundComma(a, j);
    TrimStartLeadingSpace(j);
  }

  lemma AroundComma(a: string, j: string)
    ensures (a + (", " + j))[..|a|] == a
    ensures (a + (", " + j))[|a| + 1..] == " " + j
  {
    var s := a + (", " + j);
    assert forall k :: 0 <= k < |j| ==> s[|a| + 2 + k] == j[k];
  }

  /** The first comma of `a + ", " + rest` is the one after `a` when `a` has none. */
  lemma {:induction false} FirstCommaAt(a: string, rest: string)
    requires ',' !in a
    ensures var s := a + (", " + rest); ',' in s && IndexOfChar(s, ',') == |a|
    decreases |a|
  {
    var s := a + (", " + rest);
    assert s[|a|] == ',';
    if |a| > 0 {
      assert s[0] == a[0] && a[0] in a;
      assert s[1..] == a[1..] + (", " + rest);
      assert forall c :: c in a[1..] ==> c in a;
      FirstCommaAt(a[1..], rest);
    }
  }

  /** `" " + j` loses exactly its space when `j` does not start with white space. */
  lemma TrimStartLeadingSpace(j: string)
    requires j == "" || !IsSpace(j[0])
    ensures TrimStart(" " + j) == j
  {
    assert (" " + j)[1..] == j;
  }

  /** A join of items of which the first does not start with white space does not either. */
  lemma JoinStart(items: seq<string>)
    requires |items| >= 1 && (items[0] == "" || !IsSpace(items[0][0]))
    ensures var j := Join(items, ", "); j == "" || !IsSpace(j[0])
  {
    if |items| > 1 {
      var j := Join(items, ", ");
      assert j == items[0] + (", " + Join(items[1..], ", "));
      if items[0] == "" {
        assert j[0] == ',';
        assert !IsSpace(',');
      } else {
        assert j[0] == items[0][0];
      }
    }
  }

  /** `parts` are the pieces `raw`, each after the first with its leading white space
      removed. */
  predicate SpaceTrimmedPieces(parts: seq<string>, raw: seq<string>) {
    && |parts| == |raw| && |parts| >= 1 && parts[0] == raw[0]
    && forall k :: 1 <= k < |parts| ==> parts[k] == TrimStart(raw[k])
  }

  /** `s.split(/,\s*\/)` is `s.split(",")` with the white space that opens every piece after
      the first removed: same number of pieces, same first piece. */
  lemma {:induction false} SplitOnCommaSpaceBySplit(s: string)
    ensures SpaceTrimmedPieces(SplitOnCommaSpace(s), Movies.SplitOnComma(s))
    decreases |s|
  {
    if ',' in s {
      var i := IndexOfChar(s, ',');
      var x := s[i + 1..];
      var t := TrimStart(x);
      SplitOnCommaSpaceBySplit(t);
      SplitOnCommaTrimStart(x);
      assert SplitOnCommaSpace(s) == [s[..i]] + SplitOnCommaSpace(t);
      assert Movies.SplitOnComma(s) == [s[..i]] + Movies.SplitOnComma(x);
      SpaceTrimmedCons(s[..i], SplitOnCommaSpace(t), Movies.SplitOnComma(t), Movies.SplitOnComma(x));
    }
  }

  /** One more piece in front: the pieces after the first comma, trimmed at the start. */
  lemma SpaceTrimmedCons(head: string, p: seq<string>, q: seq<string>, r: seq<string>)
    requires SpaceTrimmedPieces(p, q)
    requires |r| >= 1 && q == [TrimStart(r[0])] + r[1..]
    ensures SpaceTrimmedPieces([head] + p, [head] + r)
  {
    var parts, raw := [head] + p, [head] + r;
    forall k | 1 <= k < |parts| ensures parts[k] == TrimStart(raw[k]) {
      assert parts[k] == p[k - 1] && raw[k] == r[k - 1];
      if k > 1 {
        assert q[k - 1] == r[k - 1];
      }
    }
  }

  /** Splitting at commas after dropping leading white space only shortens the first piece. */
  lemma {:induction false} SplitOnCommaTrimStart(x: string)
    ensures var r := Movies.SplitOnComma(x);
      Movies.SplitOnComma(TrimStart(x)) == [TrimStart(r[0])] + r[1..]
    decreases |x|
  {
    var r := Movies.SplitOnComma(x);
    if |x| > 0 && IsSpace(x[0]) {
      var y := x[1..];
      assert x == [x[0]] + y;
      assert !IsSpace(',');
      SplitOnCommaCons(x[0], y);
      SplitOnCommaTrimStart(y);
      var r1 := Movies.SplitOnComma(y);
      assert ([x[0]] + r1[0])[1..] == r1[0];
      assert TrimStart([x[0]] + r1[0]) == TrimStart(r1[0]);
    } else {
      if r[0] != "" {
        assert r[0][0] == x[0];
      }
      assert TrimStart(r[0]) == r[0];
    }
  }

  /** A leading character other than a comma belongs to the first piece. */
  lemma SplitOnCommaCons(c: char, y: string)
    requires c != ','
    ensures var r := Movies.SplitOnComma(y);
      Movies.SplitOnComma([c] + y) == [[c] + r[0]] + r[1..]
  {
    var s := [c] + y;
    assert s[1..] == y;
    if ',' in y {
      var k := IndexOfChar(y, ',');
      assert IndexOfChar(s, ',') == 1 + k;
      assert s[..k + 1] == [c] + y[..k];
      assert s[k + 2..] == y[k + 1..];
    } else {
      assert forall j :: 0 <= j < |s| ==> s[j] == c || s[j] == y[j - 1];
    }
  }

  /** Only the non-empty texts of `ts`, in order. */
  function NonEmpty(ts: seq<string>): (r: seq<string>)
    ensures multiset(r) == multiset(ts)["" := 0]
  {
    if |ts| == 0 then []
    else
      var init, last := ts[..|ts| - 1], ts[|ts| - 1];
      assert ts == init + [last];
      NonEmpty(init) + (if last != "" then [last] else [])
  }

  /** The kept tokens are the trimmed pieces with the empty ones filtered out, in order; so
      each non-empty text occurs among the tokens exactly as often as among the trimmed
      pieces. */
  lemma {:induction false} KeptIsNonEmptyTrims(pieces: seq<string>)
    ensures Kept(pieces) == NonEmpty(TrimAll(pieces))
    ensures multiset(Kept(pieces)) == multiset(TrimAll(pieces))["" := 0]
  {
    if |pieces| > 0 {
      var init := pieces[..|pieces| - 1];
      KeptIsNonEmptyTrims(init);
      var ts := TrimAll(pieces);
      assert ts == TrimAll(init) + [Trim(pieces[|pieces| - 1])];
      assert ts[..|ts| - 1] == TrimAll(init);
    }
  }

  /** A genre text names the trimmed, non-empty pieces of its plain comma split. */
  lemma TokensBySplit(genre: string)
    ensures Tokens(genre) == Kept(Movies.SplitOnComma(genre))
  {
    var parts, raw := SplitOnCommaSpace(genre), Movies.SplitOnComma(genre);
    SplitOnCommaSpaceBySplit(genre);
    forall k | 0 <= k < |parts| ensures Trim(parts[k]) == Trim(raw[k]) {
      if k > 0 {
        TrimOfTrimStart(raw[k]);
      }
    }
    KeptPointwise(parts, raw);
  }

  lemma TrimOfTrimStart(p: string)
    ensures Trim(TrimStart(p)) == Trim(p)
  {
    var t := TrimStart(p);
    assert TrimStart(t) == t;
  }

  /** Pieces that trim alike keep alike. */
  lemma {:induction false} KeptPointwise(a: seq<string>, b: seq<string>)
    requires |a| == |b|
    requires forall k :: 0 <= k < |a| ==> Trim(a[k]) == Trim(b[k])
    ensures Kept(a) == Kept(b)
  {
    if |a| > 0 {
      var a', b' := a[..|a| - 1], b[..|b| - 1];
      assert forall k :: 0 <= k < |a'| ==> a'[k] == a[k] && b'[k] == b[k];
      KeptPointwise(a', b');
      assert Trim(a[|a| - 1]) == Trim(b[|b| - 1]);
    }
  }

  /** The trimmed, non-empty pieces, in order. */
  function Kept(pieces: seq<string>): (tokens: seq<string>)
    ensures forall t :: t in tokens ==> t != "" && IsTrimmed(t)
  {
    if |pieces| == 0 then []
    else
      var t := Trim(pieces[|pieces| - 1]);
      Kept(pieces[..|pieces| - 1]) + (if t != "" then [t] else [])
  }

  /** Every piece trimmed, in order. */
  function TrimAll(pieces: seq<string>): (r: seq<string>)
    ensures |r| == |pieces|
  {
    if |pieces| == 0 then [] else TrimAll(pieces[..|pieces| - 1]) + [Trim(pieces[|pieces| - 1])]
  }

  /** The `i`-th trimmed piece is the `i`-th piece, trimmed. */
  lemma {:induction false} TrimAllAt(pieces: seq<string>, i: nat)
    requires i < |pieces|
    ensures TrimAll(pieces)[i] == Trim(pieces[i])
  {
    var init := pieces[..|pieces| - 1];
    if i < |init| {
      TrimAllAt(init, i);
      assert init[i] == pieces[i];
    }
  }

  /** A token is exactly a piece's trimmed text that is not empty, and there are no more
      tokens than pieces. */
  lemma {:induction false} KeptMembers(pieces: seq<string>)
    ensures forall t :: t in Kept(pieces) <==> t != "" && t in TrimAll(pieces)
    ensures |Kept(pieces)| <= |pieces|
  {
    if |pieces| > 0 {
      var init, last := pieces[..|pieces| - 1], Trim(pieces[|pieces| - 1]);
      KeptMembers(init);
      var k, ts := Kept(init), TrimAll(init);
      assert Kept(pieces) == k + (if last != "" then [last] else []);
      assert TrimAll(pieces) == ts + [last];
      ConcatMembers(k, ts, last);
    }
  }

  /** Membership in the two sequences grows in step when one keeps `last` only if non-empty
      and the other keeps it always. */
  lemma ConcatMembers(k: seq<string>, ts: seq<string>, last: string)
    requires forall t :: t in k <==> t != "" && t in ts
    ensures forall t :: t in k + (if last != "" then [last] else []) <==> t != "" && t in ts + [last]
  {
  }

  /** Trimmed, non-empty items come back unchanged. */
  lemma {:induction false} KeptTrimmed(items: seq<string>)
    requires forall i :: 0 <= i < |items| ==> items[i] != "" && IsTrimmed(items[i])
    ensures Kept(items) == items
  {
    if |items| > 0 {
      var init, last := items[..|items| - 1], items[|items| - 1];
      assert forall i :: 0 <= i < |init| ==> init[i] == items[i];
      KeptTrimmed(init);
      TrimOfTrimmed(last);
      assert Kept(items) == Kept(init) + [last];
      assert items == init + [last];
    }
  }

  lemma TrimOfTrimmed(t: string)
    requires IsTrimmed(t)
    ensures Trim(t) == t
  {
  }

  /** The genres one movie's genre text names. */
  function Tokens(genre: string): seq<string> {
    Kept(SplitOnCommaSpace(genre))
  }

  /** A genre text written as `items.join(", ")` names exactly those genres, for trimmed,
      non-empty, comma-free items. */
  lemma TokensOfJoin(items: seq<string>)
    requires |items| >= 1
    requires forall i :: 0 <= i < |items| ==> items[i] != "" && IsTrimmed(items[i]) && ',' !in items[i]
    ensures Tokens(Join(items, ", ")) == items
  {
    SplitJoinRoundTrip(items);
    KeptTrimmed(items);
  }

  /** A movie's genre when it is truthy text, and "" otherwise. */
  function GenreOf(movie: Movies.Row): string {
    if "genre" in movie.cols && movie.cols["genre"].Str? then movie.cols["genre"].s else ""
  }

  /** Every token counted, movie by movie; a movie without a genre adds none. */
  function AllTokens(movies: seq<Movies.Row>): seq<string> {
    if |movies| == 0 then []
    else
      var genre := GenreOf(movies[|movies| - 1]);
      AllTokens(movies[..|movies| - 1]) + (if genre != "" then Tokens(genre) else [])
  }

  // ---------------------------------------------------------------------------
  // The `genreCounts` record

  /** The record's keys in insertion order and its values. */
  datatype Tally = Tally(keys: seq<string>, counts: map<string, nat>)

  /** `genreCounts[g] = (genreCounts[g] || 0) + 1`. */
  function Add(t: Tally, g: string): Tally {
    if g in t.counts then Tally(t.keys, t.counts[g := t.counts[g] + 1])
    else Tally(t.keys + [g], t.counts[g := 1])
  }

  /** The record after counting `tokens` in order. */
  function Fold(tokens: seq<string>): (t: Tally)
    ensures forall g :: g in t.keys <==> g in t.counts
  {
    if |tokens| == 0 then Tally([], map[]) else Add(Fold(tokens[..|tokens| - 1]), tokens[|tokens| - 1])
  }

  lemma FoldSnoc(tokens: seq<string>, g: string)
    ensures Fold(tokens + [g]) == Add(Fold(tokens), g)
  {
    assert (tokens + [g])[..|tokens|] == tokens;
  }

  lemma KeptSnoc(pieces: seq<string>, j: nat)
    requires j < |pieces|
    ensures Kept(pieces[..j + 1]) == Kept(pieces[..j]) + (if Trim(pieces[j]) != "" then [Trim(pieces[j])] else [])
  {
    assert pieces[..j + 1][..j] == pieces[..j];
  }

  lemma AllTokensSnoc(movies: seq<Movies.Row>, i: nat)
    requires i < |movies|
    ensures AllTokens(movies[..i + 1]) ==
      AllTokens(movies[..i]) + (if GenreOf(movies[i]) != "" then Tokens(GenreOf(movies[i])) else [])
  {
    assert movies[..i + 1][..i] == movies[..i];
  }

  lemma AppendAssoc(a: seq<string>, b: seq<string>, g: string)
    ensures (a + b) + [g] == a + (b + [g])
  {
  }

  /** `genreCounts[g] = (genreCounts[g] || 0) + 1`, on the record's keys and values. */
  method Increment(keys0: seq<string>, counts0: map<string, nat>, g: string) returns (keys: seq<string>, counts: map<string, nat>)
    ensures Tally(keys, counts) == Add(Tally(keys0, counts0), g)
  {
    if g in counts0 {
      keys, counts := keys0, counts0[g := counts0[g] + 1];
    } else {
      keys, counts := keys0 + [g], counts0[g := 1];
    }
  }

  /** The inner loop: counts the kept pieces of one movie's genre text. */
  method CountPieces(pieces: seq<string>, keys0: seq<string>, counts0: map<string, nat>, ghost seen0: seq<string>)
    returns (keys: seq<string>, counts: map<string, nat>)
    requires Tally(keys0, counts0) == Fold(seen0)
    ensures Tally(keys, counts) == Fold(seen0 + Kept(pieces))
  {
    keys, counts := keys0, counts0;
    assert seen0 + Kept(pieces[..0]) == seen0 + [] == seen0;
    for j := 0 to |pieces|
      invariant Tally(keys, counts) == Fold(seen0 + Kept(pieces[..j]))
    {
      ghost var kept := Kept(pieces[..j]);
      KeptSnoc(pieces, j);
      var g := Trim(pieces[j]);
      if g != "" {
        FoldSnoc(seen0 + kept, g);
        AppendAssoc(seen0, kept, g);
        keys, counts := Increment(keys, counts, g);
      } else {
        assert Kept(pieces[..j + 1]) == kept + [] == kept;
      }
    }
    assert pieces[..|pieces|] == pieces;
  }

  /** The nested loops of the page. */
  method CountGenres(movies: seq<Movies.Row>) returns (keys: seq<string>, counts: map<string, nat>)
    ensures Tally(keys, counts) == Fold(AllTokens(movies))
  {
    keys, counts := [], map[];
    ghost var seen: seq<string> := [];
    for i := 0 to |movies|
      invariant seen == AllTokens(movies[..i])
      invariant Tally(keys, counts) == Fold(seen)
    {
      AllTokensSnoc(movies, i);
      var genre := GenreOf(movies[i]);
      if genre != "" {
        keys, counts := CountPieces(SplitOnCommaSpace(genre), keys, counts, seen);
        seen := seen + Tokens(genre);
      } else {
        assert AllTokens(movies[..i + 1]) == seen + [];
        assert seen + [] == seen;
      }
    }
    assert movies[..|movies|] == movies;
  }

  predicate Distinct(keys: seq<string>) {
    forall i, j :: 0 <= i < j < |keys| ==> keys[i] != keys[j]
  }

  /** The sum of the values of `keys`. */
  function Total(keys: seq<string>, counts: map<string, nat>): nat
    requires forall k :: k in keys ==> k in counts
  {
    if |keys| == 0 then 0 else Total(keys[..|keys| - 1], counts) + counts[keys[|keys| - 1]]
  }

  lemma {:induction false} TotalOtherKey(keys: seq<string>, counts: map<string, nat>, g: string, v: nat)
    requires forall k :: k in keys ==> k in counts
    requires g !in keys
    ensures Total(keys, counts[g := v]) == Total(keys, counts)
  {
    if |keys| > 0 {
      TotalOtherKey(keys[..|keys| - 1], counts, g, v);
    }
  }

  lemma {:induction false} TotalBump(keys: seq<string>, counts: map<string, nat>, g: string)
    requires forall k :: k in keys ==> k in counts
    requires Distinct(keys) && g in keys
    ensures Total(keys, counts[g := counts[g] + 1]) == Total(keys, counts) + 1
  {
    var n := |keys|;
    var init := keys[..n - 1];
    assert Distinct(init);
    if keys[n - 1] == g {
      assert g !in init;
      TotalOtherKey(init, counts, g, counts[g] + 1);
    } else {
      assert g in init by {
        var i :| 0 <= i < n && keys[i] == g;
        assert init[i] == g;
      }
      TotalBump(init, counts, g);
    }
  }

  /** The record holds exactly the tokens seen, each key once, with its number of
      occurrences; the values add up to the number of tokens. */
  lemma FoldCounts(tokens: seq<string>)
    ensures var t := Fold(tokens);
      && (forall g :: g in t.counts <==> g in tokens)
      && Distinct(t.keys)
      && (forall g :: g in t.counts ==> t.counts[g] == multiset(tokens)[g] && t.counts[g] >= 1)
      && Total(t.keys, t.counts) == |tokens|
  {
    FoldMembers(tokens);
    FoldDistinct(tokens);
    FoldMultiplicity(tokens);
    FoldTotal(tokens);
  }

  lemma {:induction false} FoldMembers(tokens: seq<string>)
    ensures forall g :: g in Fold(tokens).counts <==> g in tokens
    decreases |tokens|
  {
    if |tokens| > 0 {
      var init := tokens[..|tokens| - 1];
      var g := tokens[|tokens| - 1];
      FoldMembers(init);
      assert tokens == init + [g];
      FoldSnoc(init, g);
    }
  }

  lemma {:induction false} FoldDistinct(tokens: seq<string>)
    ensures Distinct(Fold(tokens).keys)
    decreases |tokens|
  {
    if |tokens| > 0 {
      var init := tokens[..|tokens| - 1];
      var g := tokens[|tokens| - 1];
      FoldDistinct(init);
      assert tokens == init + [g];
      FoldSnoc(init, g);
    }
  }

  lemma {:induction false} FoldMultiplicity(tokens: seq<string>)
    ensures forall g :: g in Fold(tokens).counts ==>
      Fold(tokens).counts[g] == multiset(tokens)[g] && Fold(tokens).counts[g] >= 1
    decreases |tokens|
  {
    if |tokens| > 0 {
      var init := tokens[..|tokens| - 1];
      var g := tokens[|tokens| - 1];
      FoldMultiplicity(init);
      FoldMembers(init);
      assert tokens == init + [g];
      assert multiset(tokens) == multiset(init) + multiset{g};
      FoldSnoc(init, g);
    }
  }

  lemma {:induction false} FoldTotal(tokens: seq<string>)
    ensures Total(Fold(tokens).keys, Fold(tokens).counts) == |tokens|
    decreases |tokens|
  {
    if |tokens| > 0 {
      var init := tokens[..|tokens| - 1];
      var g := tokens[|tokens| - 1];
      FoldTotal(init);
      FoldDistinct(init);
      assert tokens == init + [g];
      FoldSnoc(init, g);
      AddTotal(Fold(init), g);
    }
  }

  /** Counting one more token adds one to the total. */
  lemma AddTotal(t: Tally, g: string)
    requires forall x :: x in t.keys <==> x in t.counts
    requires Distinct(t.keys)
    ensures forall x :: x in Add(t, g).keys ==> x in Add(t, g).counts
    ensures Total(Add(t, g).keys, Add(t, g).counts) == Total(t.keys, t.counts) + 1
  {
    if g in t.counts {
      TotalBump(t.keys, t.counts, g);
    } else {
      TotalOtherKey(t.keys, t.counts, g, 1);
      var keys := t.keys + [g];
      var counts := t.counts[g := 1];
      assert keys[..|keys| - 1] == t.keys;
      assert Total(keys, counts) == Total(t.keys, counts) + 1;
    }
  }

  /** A movie whose genre is empty or missing adds nothing to any count. */
  lemma NoGenreNoTokens(movies: seq<Movies.Row>, movie: Movies.Row)
    requires GenreOf(movie) == ""
    ensures AllTokens(movies + [movie]) == AllTokens(movies)
  {
    var all := movies + [movie];
    AllTokensSnoc(all, |movies|);
    assert all[..|movies|] == movies && all[..|movies| + 1] == all;
    assert AllTokens(all) == AllTokens(movies) + [];
    assert AllTokens(movies) + [] == AllTokens(movies);
  }

  /** Every key shown is a non-empty trimmed genre with a positive count. */
  lemma {:induction false} KeysAreClean(movies: seq<Movies.Row>)
    ensures var t := Fold(AllTokens(movies));
      forall g :: g in t.keys ==> g != "" && IsTrimmed(g) && g in t.counts && t.counts[g] >= 1
  {
    FoldCounts(AllTokens(movies));
    AllTokensClean(movies);
  }

  lemma {:induction false} AllTokensClean(movies: seq<Movies.Row>)
    ensures forall g :: g in AllTokens(movies) ==> g != "" && IsTrimmed(g)
    decreases |movies|
  {
    if |movies| > 0 {
      AllTokensClean(movies[..|movies| - 1]);
    }
  }

  // ---------------------------------------------------------------------------
  // Ordering and display

  /** `Object.entries(genreCounts)`. */
  function Entries(t: Tally): (es: seq<(string, nat)>)
    requires forall g :: g in t.keys ==> g in t.counts
    ensures |es| == |t.keys|
    ensures forall i :: 0 <= i < |es| ==> es[i] == (t.keys[i], t.counts[t.keys[i]])
  {
    seq(|t.keys|, i requires 0 <= i < |t.keys| => (t.keys[i], t.counts[t.keys[i]]))
  }

  predicate Descending(es: seq<(string, nat)>) {
    forall i, j :: 0 <= i < j < |es| ==> es[i].1 >= es[j].1
  }

  /** Places `e` after every entry whose count is at least its own. */
  function InsertByCount(e: (string, nat), sorted: seq<(string, nat)>): (r: seq<(string, nat)>)
    requires Descending(sorted)
    ensures Descending(r)
    ensures forall x :: x in r ==> x == e || x in sorted
    ensures multiset(r) == multiset(sorted) + multiset{e}
  {
    if |sorted| == 0 then [e]
    else if sorted[0].1 >= e.1 then
      var rest := InsertByCount(e, sorted[1..]);
      KeepHead(e, sorted, rest);
      [sorted[0]] + rest
    else
      [e] + sorted
  }

  /** The head of a descending list stays in front of the rest with `e` inserted. */
  lemma KeepHead(e: (string, nat), sorted: seq<(string, nat)>, rest: seq<(string, nat)>)
    requires |sorted| > 0 && Descending(sorted) && sorted[0].1 >= e.1
    requires Descending(rest)
    requires forall x :: x in rest ==> x == e || x in sorted[1..]
    requires multiset(rest) == multiset(sorted[1..]) + multiset{e}
    ensures Descending([sorted[0]] + rest)
    ensures forall x :: x in [sorted[0]] + rest ==> x == e || x in sorted
    ensures multiset([sorted[0]] + rest) == multiset(sorted) + multiset{e}
  {
    assert forall x :: x in sorted[1..] ==> x.1 <= sorted[0].1;
    assert sorted == [sorted[0]] + sorted[1..];
  }

  /** `.sort(([, a], [, b]) => b - a)`: entries by descending count. */
  function SortByCount(es: seq<(string, nat)>): (r: seq<(string, nat)>)
    ensures Descending(r)
    ensures multiset(r) == multiset(es)
  {
    if |es| == 0 then []
    else
      assert es == es[..|es| - 1] + [es[|es| - 1]];
      InsertByCount(es[|es| - 1], SortByCount(es[..|es| - 1]))
  }

  /** "1 movie", "2 movies", "0 movies". */
  function CountLabel(count: nat): (text: string)
    ensures EndsWith(text, " movie") <==> count == 1
    ensures EndsWith(text, " movies") <==> count != 1
    ensures StartsWith(text, NatToString(count) + " ")
  {
    var n := NatToString(count);
    if count != 1 then
      var text := n + " movies";
      assert text[..|n| + 1] == n + " ";
      assert text[|text| - 7..] == " movies";
      assert text[|text| - 6..] != " movie" by {
        assert text[|text| - 1] == 's';
      }
      text
    else
      assert n == "1";
      "1 movie"
  }

  datatype GenresView = NoGenres | Cards(cards: seq<(string, string)>)

  lemma NoTokensNoKeys(tokens: seq<string>)
    ensures |Fold(tokens).keys| == 0 <==> |tokens| == 0
  {
    FoldCounts(tokens);
    var t := Fold(tokens);
    if |tokens| > 0 {
      assert tokens[0] in t.keys;
    }
    if |t.keys| > 0 {
      assert t.keys[0] in tokens;
    }
  }

  /** Each entry's genre with its count label. */
  function CardsOf(es: seq<(string, nat)>): (cards: seq<(string, string)>)
    ensures |cards| == |es|
    ensures forall i :: 0 <= i < |es| ==> cards[i] == (es[i].0, CountLabel(es[i].1))
  {
    seq(|es|, i requires 0 <= i < |es| => (es[i].0, CountLabel(es[i].1)))
  }

  /** The page: the empty message when no movie names a genre, else one card per genre,
      by descending count, with its label. */
  method RenderGenres(movies: seq<Movies.Row>) returns (view: GenresView)
    ensures view.NoGenres? <==> |AllTokens(movies)| == 0
    ensures view.Cards? ==> view.cards == CardsOf(SortByCount(Entries(Fold(AllTokens(movies)))))
  {
    var keys, counts := CountGenres(movies);
    NoTokensNoKeys(AllTokens(movies));
    var es := SortByCount(Entries(Tally(keys, counts)));
    assert |es| == |multiset(es)| == |keys|;
    if |es| == 0 {
      view := NoGenres;
    } else {
      view := Cards(CardsOf(es));
    }
  }
}
