/** The keyword search over the symbol index: every command-line term is
    lowercased, and a symbol is kept when each term occurs in its lowercased
    label, a missing label counting as the empty string. Without any term
    the tool prints its usage line and exits instead. */
module SymbolSearch {
  import opened Common

  /** An entry of the index: its slug and its label (`caption`), if it has one. */
  datatype Symbol = Symbol(slug: string, caption: Option<string>)

  /** The usage exit taken when no term is given. */
  datatype SearchError = Usage

  /** `process.argv.slice(2).map(s => s.toLowerCase())` */
  function Terms(args: seq<string>): (terms: seq<string>)
    ensures |terms| == |args|
    ensures forall i :: 0 <= i < |args| ==> terms[i] == Lower(args[i])
  {
    seq(|args|, i requires 0 <= i < |args| => Lower(args[i]))
  }

  /** `(s.label || '').toLowerCase()` */
  function LabelKey(s: Symbol): (key: string)
    ensures s.caption.None? ==> key == ""
  {
    Lower(s.caption.GetOr(""))
  }

  /** `terms.every(t => label.includes(t))` */
  predicate Matches(s: Symbol, terms: seq<string>)
    ensures Matches(s, terms) <==> forall t :: t in terms ==> Contains(LabelKey(s), t)
    ensures Matches(s, terms) ==> forall i :: 0 <= i < |terms| ==> |terms[i]| <= |LabelKey(s)|
  {
    assert forall i :: 0 <= i < |terms| ==> terms[i] in terms;
    forall i :: 0 <= i < |terms| ==> Contains(LabelKey(s), terms[i])
  }

  /** `idx.symbols.filter(...)`: the matching symbols in index order. */
  function Filter(symbols: seq<Symbol>, terms: seq<string>): (matches: seq<Symbol>)
    ensures |matches| <= |symbols|
    decreases |symbols|
  {
    if symbols == [] then []
    else (if Matches(symbols[0], terms) then [symbols[0]] else []) + Filter(symbols[1..], terms)
  }

  /** The search: the usage exit without terms, the matches otherwise. */
  function Search(args: seq<string>, symbols: seq<Symbol>): (r: Result<seq<Symbol>, SearchError>)
    ensures r.Err? <==> args == []
    ensures r.Ok? ==> r.value == Filter(symbols, Terms(args))
  {
    if |args| == 0 then Err(Usage) else Ok(Filter(symbols, Terms(args)))
  }

  // ---------------------------------------------------------------------
  // Properties of the search
  // ---------------------------------------------------------------------

  /** A symbol is among the matches exactly when it is in the index and
      every term, lowercased, occurs in its lowercased label. */
  lemma {:induction false} FilterMembers(symbols: seq<Symbol>, terms: seq<string>, s: Symbol)
    ensures s in Filter(symbols, terms) <==> s in symbols && Matches(s, terms)
    decreases |symbols|
  {
    if symbols != [] {
      FilterMembers(symbols[1..], terms, s);
      assert symbols == [symbols[0]] + symbols[1..];
    }
  }

  lemma SearchMembers(args: seq<string>, symbols: seq<Symbol>, s: Symbol)
    requires args != []
    ensures s in Search(args, symbols).value <==>
      s in symbols && forall i :: 0 <= i < |args| ==> Contains(LabelKey(s), Lower(args[i]))
  {
    FilterMembers(symbols, Terms(args), s);
  }

  /** Filtering distributes over concatenation, so it keeps index order. */
  lemma {:induction false} FilterConcat(a: seq<Symbol>, b: seq<Symbol>, terms: seq<string>)
    ensures Filter(a + b, terms) == Filter(a, terms) + Filter(b, terms)
    decreases |a|
  {
    if a == [] {
      assert a + b == b;
    } else {
      var ab := a + b;
      var head := if Matches(a[0], terms) then [a[0]] else [];
      assert ab[0] == a[0] && ab[1..] == a[1..] + b;
      assert Filter(ab, terms) == head + Filter(a[1..] + b, terms);
      FilterConcat(a[1..], b, terms);
      assert Filter(a, terms) == head + Filter(a[1..], terms);
      assert head + (Filter(a[1..], terms) + Filter(b, terms)) == (head + Filter(a[1..], terms)) + Filter(b, terms);
    }
  }

  /** The matches are a subsequence of the index: they sit at strictly
      increasing positions of it. */
  lemma {:induction false} FilterSubsequence(symbols: seq<Symbol>, terms: seq<string>) returns (positions: seq<int>)
    ensures |positions| == |Filter(symbols, terms)|
    ensures forall k :: 0 <= k < |positions| ==>
      0 <= positions[k] < |symbols| && Filter(symbols, terms)[k] == symbols[positions[k]]
    ensures forall k, l :: 0 <= k < l < |positions| ==> positions[k] < positions[l]
    decreases |symbols|
  {
    if symbols == [] {
      positions := [];
    } else {
      var tail := symbols[1..];
      var found := Filter(tail, terms);
      var rest := FilterSubsequence(tail, terms);
      var shifted := ShiftedPositions(symbols, tail, found, rest);
      var f := Filter(symbols, terms);
      if Matches(symbols[0], terms) {
        assert f == [symbols[0]] + found;
        positions := [0] + shifted;
        forall k | 0 < k < |positions|
          ensures positions[k] == shifted[k - 1] && f[k] == found[k - 1]
        {
        }
      } else {
        assert f == found;
        positions := shifted;
      }
    }
  }

  /** Positions in `symbols[1..]` moved one place right are positions in `symbols`. */
  lemma ShiftedPositions(symbols: seq<Symbol>, tail: seq<Symbol>, found: seq<Symbol>, rest: seq<int>)
    returns (shifted: seq<int>)
    requires symbols != [] && tail == symbols[1..]
    requires |rest| == |found|
    requires forall k :: 0 <= k < |rest| ==> 0 <= rest[k] < |tail| && found[k] == tail[rest[k]]
    requires forall k, l :: 0 <= k < l < |rest| ==> rest[k] < rest[l]
    ensures |shifted| == |rest|
    ensures forall k :: 0 <= k < |shifted| ==> 0 < shifted[k] < |symbols| && found[k] == symbols[shifted[k]]
    ensures forall k, l :: 0 <= k < l < |shifted| ==> shifted[k] < shifted[l]
  {
    shifted := seq(|rest|, k requires 0 <= k < |rest| => rest[k] + 1);
  }

  /** With no term every symbol matches. */
  lemma {:induction false} FilterNoTerms(symbols: seq<Symbol>)
    ensures Filter(symbols, []) == symbols
    decreases |symbols|
  {
    if symbols != [] {
      FilterNoTerms(symbols[1..]);
      assert symbols == [symbols[0]] + symbols[1..];
    }
  }

  /** More terms narrow the search: searching for `t1 + t2` is searching
      the matches of `t1` for `t2`. */
  lemma {:induction false} FilterMoreTerms(symbols: seq<Symbol>, t1: seq<string>, t2: seq<string>)
    ensures Filter(symbols, t1 + t2) == Filter(Filter(symbols, t1), t2)
    decreases |symbols|
  {
    if symbols != [] {
      var s := symbols[0];
      assert Matches(s, t1 + t2) <==> Matches(s, t1) && Matches(s, t2) by {
        assert forall i :: 0 <= i < |t1| ==> (t1 + t2)[i] == t1[i];
        assert forall i :: 0 <= i < |t2| ==> (t1 + t2)[|t1| + i] == t2[i];
      }
      FilterMoreTerms(symbols[1..], t1, t2);
      if Matches(s, t1) {
        var x := [s] + Filter(symbols[1..], t1);
        assert x[0] == s && x[1..] == Filter(symbols[1..], t1);
      } else {
        assert Filter(symbols, t1) == Filter(symbols[1..], t1);
      }
    }
  }

  /** Adding a term never adds a match. */
  lemma AddingTermsNarrows(symbols: seq<Symbol>, t1: seq<string>, t2: seq<string>, s: Symbol)
    requires s in Filter(symbols, t1 + t2)
    ensures s in Filter(symbols, t1)
  {
    FilterMoreTerms(symbols, t1, t2);
    FilterMembers(Filter(symbols, t1), t2, s);
  }

  /** Terms that differ only in letter case give the same search. */
  lemma SearchIgnoresTermCase(args1: seq<string>, args2: seq<string>, symbols: seq<Symbol>)
    requires |args1| == |args2|
    requires forall i :: 0 <= i < |args1| ==> SameUpToCase(args1[i], args2[i])
    ensures Search(args1, symbols) == Search(args2, symbols)
  {
    forall i | 0 <= i < |args1|
      ensures Lower(args1[i]) == Lower(args2[i])
    {
      SameUpToCaseLower(args1[i], args2[i]);
    }
    assert Terms(args1) == Terms(args2);
  }

  /** Labels that differ only in letter case match the same terms. */
  lemma MatchIgnoresLabelCase(s1: Symbol, s2: Symbol, terms: seq<string>)
    requires s1.caption.Some? && s2.caption.Some? && SameUpToCase(s1.caption.value, s2.caption.value)
    ensures Matches(s1, terms) <==> Matches(s2, terms)
  {
    SameUpToCaseLower(s1.caption.value, s2.caption.value);
  }

  /** A symbol without a label matches only when every term is empty. */
  lemma UnlabeledMatchesOnlyEmptyTerms(s: Symbol, terms: seq<string>)
    requires s.caption.None?
    ensures Matches(s, terms) <==> forall i :: 0 <= i < |terms| ==> terms[i] == ""
  {
    forall i | 0 <= i < |terms|
      ensures Contains(LabelKey(s), terms[i]) <==> terms[i] == ""
    {
      ContainsInEmpty(terms[i]);
    }
  }
}
