/** Python's `sep.join(parts)` and `s.split(c)` on text, and how they undo each other. */
module Lines {

  /** `sep.join(parts)`: the parts with `sep` between neighbours. */
  function Join(sep: string, parts: seq<string>): string {
    if parts == [] then ""
    else if |parts| == 1 then parts[0]
    else Join(sep, parts[..|parts| - 1]) + sep + parts[|parts| - 1]
  }

  /** `s.split(c)`: the pieces of `s` between occurrences of `c`; always at least one. */
  function Split(c: char, s: string): (pieces: seq<string>)
    ensures |pieces| >= 1
  {
    if s == [] then [""]
    else
      var pieces := Split(c, s[..|s| - 1]);
      var last := s[|s| - 1];
      if last == c then pieces + [""]
      else pieces[..|pieces| - 1] + [pieces[|pieces| - 1] + [last]]
  }

  /** Joining two non-empty lists of parts puts one separator between the halves. */
  lemma {:induction false} JoinConcat(sep: string, a: seq<string>, b: seq<string>)
    requires a != [] && b != []
    ensures Join(sep, a + b) == Join(sep, a) + sep + Join(sep, b)
  {
    var ab := a + b;
    if |b| > 1 {
      assert ab[..|ab| - 1] == a + b[..|b| - 1];
      JoinConcat(sep, a, b[..|b| - 1]);
    } else {
      assert ab[..|ab| - 1] == a;
    }
  }

  /** Extending the last part extends the joined text at its end. */
  lemma JoinExtendLast(sep: string, parts: seq<string>, y: string)
    requires parts != []
    ensures var k := |parts| - 1;
      Join(sep, parts[..k] + [parts[k] + y]) == Join(sep, parts) + y
  {
    var k := |parts| - 1;
    var longer := parts[..k] + [parts[k] + y];
    assert longer[..k] == parts[..k];
  }

  /** An empty last part leaves just the separator at the end. */
  lemma JoinAppendEmpty(sep: string, parts: seq<string>)
    requires parts != []
    ensures Join(sep, parts + [""]) == Join(sep, parts) + sep
  {
    var longer := parts + [""];
    assert longer[..|longer| - 1] == parts;
  }

  /** One more character either starts a new piece or extends the last one. */
  lemma SplitSnoc(c: char, init: string, last: char)
    ensures var pieces, k := Split(c, init), |Split(c, init)| - 1;
      Split(c, init + [last]) ==
        if last == c then pieces + [""] else pieces[..k] + [pieces[k] + [last]]
  {
    assert (init + [last])[..|init|] == init;
  }

  /** Appending a character to a text that splits and joins back keeps that so. */
  lemma JoinSplitStep(c: char, init: string, last: char)
    requires Join([c], Split(c, init)) == init
    ensures Join([c], Split(c, init + [last])) == init + [last]
  {
    var pieces := Split(c, init);
    SplitSnoc(c, init, last);
    if last == c {
      JoinAppendEmpty([c], pieces);
    } else {
      JoinExtendLast([c], pieces, [last]);
    }
  }

  /** Splitting and joining back gives the text unchanged. */
  lemma {:induction false} JoinSplit(c: char, s: string)
    ensures Join([c], Split(c, s)) == s
  {
    if s != [] {
      var init, last := s[..|s| - 1], s[|s| - 1];
      JoinSplit(c, init);
      JoinSplitStep(c, init, last);
      assert init + [last] == s;
    }
  }

  /** Text without `c` is one piece. */
  lemma {:induction false} SplitPlain(c: char, x: string)
    requires c !in x
    ensures Split(c, x) == [x]
  {
    if x != [] {
      SplitPlain(c, x[..|x| - 1]);
      assert x[..|x| - 1] + [x[|x| - 1]] == x;
    }
  }

  /** A separator followed by text without `c` adds that text as one more piece. */
  lemma {:induction false} SplitAfterSeparator(c: char, s: string, x: string)
    requires c !in x
    ensures Split(c, s + [c] + x) == Split(c, s) + [x]
  {
    var t := s + [c] + x;
    if x == [] {
      assert t[..|t| - 1] == s;
    } else {
      var x' := x[..|x| - 1];
      assert t[..|t| - 1] == s + [c] + x';
      SplitAfterSeparator(c, s, x');
      assert x' + [x[|x| - 1]] == x;
    }
  }

  /** Parts without `c`, joined by `c`, split back into the same parts. */
  lemma {:induction false} SplitJoin(c: char, parts: seq<string>)
    requires parts != []
    requires forall i :: 0 <= i < |parts| ==> c !in parts[i]
    ensures Split(c, Join([c], parts)) == parts
  {
    if |parts| == 1 {
      SplitPlain(c, parts[0]);
    } else {
      var init, last := parts[..|parts| - 1], parts[|parts| - 1];
      SplitJoin(c, init);
      assert Join([c], parts) == Join([c], init) + [c] + last;
      SplitAfterSeparator(c, Join([c], init), last);
      assert init + [last] == parts;
    }
  }
}
