/** What joining header values with a comma does to the list they hold (section 5.3 of RFC 9110). */
module ListJoin {
  import opened Utils

  function Join(a: string, b: string): string {
    a + "," + b
  }

  lemma {:induction false} BlankEndJoin(a: string, b: string, i: nat)
    requires i <= |a|
    ensures BlankEnd(Join(a, b), i) == BlankEnd(a, i)
    decreases |a| - i
  {
    if i < |a| && IsBlank(a[i]) {
      BlankEndJoin(a, b, i + 1);
    }
  }

  lemma {:induction false} CommaFromJoin(a: string, b: string, i: nat)
    requires i <= |a|
    ensures CommaFrom(Join(a, b), i) == CommaFrom(a, i)
    decreases |a| - i
  {
    if i < |a| && a[i] != ',' {
      CommaFromJoin(a, b, i + 1);
    }
  }

  lemma {:induction false} QuoteEndJoin(a: string, b: string, i: nat)
    requires i <= |a| && (QuoteEnd(a, i) < |a| || '"' !in b)
    ensures QuoteEnd(a, i) < |a| ==> QuoteEnd(Join(a, b), i) == QuoteEnd(a, i)
    ensures QuoteEnd(a, i) == |a| ==> QuoteEnd(Join(a, b), i) == |Join(a, b)|
    decreases |a| - i
  {
    var s := Join(a, b);
    if i < |a| && a[i] != '"' {
      var next := if a[i] == '\\' then i + 2 else i + 1;
      if next <= |a| {
        QuoteEndJoin(a, b, next);
      } else {
        QuoteEndNone(s, next);
      }
    } else if i == |a| {
      QuoteEndNone(s, i);
    }
  }

  lemma {:induction false} QuoteEndNone(s: string, i: nat)
    requires forall k :: i <= k < |s| ==> s[k] != '"'
    ensures QuoteEnd(s, i) == |s|
    decreases |s| - i
  {
    if i < |s| {
      QuoteEndNone(s, if s[i] == '\\' then i + 2 else i + 1);
    }
  }

  /** The elements that are not empty, in their order. */
  function Filled(elements: seq<string>): seq<string> {
    if elements == [] then []
    else Filled(elements[..|elements| - 1]) + if elements[|elements| - 1] == "" then [] else [elements[|elements| - 1]]
  }

  lemma {:induction false} FilledAppend(a: seq<string>, b: seq<string>)
    ensures Filled(a + b) == Filled(a) + Filled(b)
  {
    if b == [] {
      assert a + b == a;
    } else {
      assert (a + b)[..|a + b| - 1] == a + b[..|b| - 1];
      FilledAppend(a, b[..|b| - 1]);
    }
  }

  lemma {:induction false} FilledHas(elements: seq<string>, token: string)
    requires token != ""
    ensures token in Filled(elements) <==> token in elements
  {
    if elements != [] {
      FilledHas(elements[..|elements| - 1], token);
    }
  }

  lemma FilledEmpty()
    ensures Filled([""]) == []
  {
    assert [""][..0] == [];
  }

  lemma SameElement(a: string, b: string, quoted: bool, head: nat, start: nat, end: nat)
    requires head <= start <= end <= |a|
    ensures ElementAt(Join(a, b), quoted, head, start, end) == ElementAt(a, quoted, head, start, end)
  {
    assert Join(a, b)[start..end] == a[start..end];
  }

  /** The first element read from `i`, when it is in quotes, and what is read behind it. */
  lemma QuotedFirst(s: string, i: nat)
    requires i < |s| && BlankEnd(s, i) < |s| && s[BlankEnd(s, i)] == '"'
    ensures var start := BlankEnd(s, i);
            var close := QuoteEnd(s, start + 1);
            if close == |s| then ElementsFrom(s, i) == []
            else
              var next := BlankEnd(s, close + 1);
              if next < |s| && s[next] == ',' then
                ElementsFrom(s, i) == [TrimEnd(s[start + 1..close])] + ElementsFrom(s, next + 1)
              else ElementsFrom(s, i) == [TrimEnd(s[start + 1..close])]
  {
    hide BlankEnd, QuoteEnd, CommaFrom, TrimEnd, Bare;
  }

  /** The same when it is bare. */
  lemma BareFirst(s: string, i: nat)
    requires i < |s| && !(BlankEnd(s, i) < |s| && s[BlankEnd(s, i)] == '"')
    ensures var start := BlankEnd(s, i);
            var end := CommaFrom(s, start);
            ElementsFrom(s, i) == Bare(start - i, s[start..end]) + ElementsFrom(s, end + 1)
  {
    hide BlankEnd, QuoteEnd, CommaFrom, TrimEnd, Bare;
  }

  lemma SliceShift(p: string, b: string, i: nat, j: nat)
    requires i <= j <= |b|
    ensures (p + b)[|p| + i..|p| + j] == b[i..j]
  {
  }

  lemma QuotedShift(p: string, b: string, i: nat)
    requires i < |b| && BlankEnd(b, i) < |b| && b[BlankEnd(b, i)] == '"'
    requires forall j :: i < j ==> ElementsFrom(p + b, |p| + j) == ElementsFrom(b, j)
    ensures ElementsFrom(p + b, |p| + i) == ElementsFrom(b, i)
  {
    hide BlankEnd, CommaFrom, QuoteEnd, TrimEnd, Bare, ElementsFrom;
    var start := BlankEnd(b, i);
    BlankEndShift(p, b, i);
    QuoteEndShift(p, b, start + 1);
    QuotedFirst(b, i);
    QuotedFirst(p + b, |p| + i);
    var close := QuoteEnd(b, start + 1);
    if close < |b| {
      BlankEndShift(p, b, close + 1);
      SliceShift(p, b, start + 1, close);
    }
  }

  lemma BareShift(p: string, b: string, i: nat)
    requires i < |b| && !(BlankEnd(b, i) < |b| && b[BlankEnd(b, i)] == '"')
    requires forall j :: i < j ==> ElementsFrom(p + b, |p| + j) == ElementsFrom(b, j)
    ensures ElementsFrom(p + b, |p| + i) == ElementsFrom(b, i)
  {
    hide BlankEnd, CommaFrom, QuoteEnd, TrimEnd, Bare, ElementsFrom;
    var start := BlankEnd(b, i);
    BlankEndShift(p, b, i);
    CommaFromShift(p, b, start);
    BareFirst(b, i);
    BareFirst(p + b, |p| + i);
    SliceShift(p, b, start, CommaFrom(b, start));
  }

  /** Reading the second value where it stands after a prefix. */
  lemma {:induction false} ElementsFromShift(p: string, b: string, i: nat)
    ensures ElementsFrom(p + b, |p| + i) == ElementsFrom(b, i)
    decreases |b| - i
  {
    hide BlankEnd, CommaFrom, QuoteEnd, TrimEnd, Bare;
    if i < |b| {
      hide ElementsFrom;
      forall j | i < j
        ensures ElementsFrom(p + b, |p| + j) == ElementsFrom(b, j)
      {
        ElementsFromShift(p, b, j);
      }
      if BlankEnd(b, i) < |b| && b[BlankEnd(b, i)] == '"' {
        QuotedShift(p, b, i);
      } else {
        BareShift(p, b, i);
      }
    }
  }

  lemma ElementsShift(p: string, b: string, i: nat, token: string)
    ensures InRest(p + b, |p| + i, token) <==> InRest(b, i, token)
  {
    hide ElementsFrom;
    ElementsFromShift(p, b, i);
  }

  lemma {:induction false} BlankEndShift(p: string, b: string, i: nat)
    requires i <= |b|
    ensures BlankEnd(p + b, |p| + i) == |p| + BlankEnd(b, i)
    decreases |b| - i
  {
    if i < |b| && IsBlank(b[i]) {
      BlankEndShift(p, b, i + 1);
    }
  }

  lemma {:induction false} CommaFromShift(p: string, b: string, i: nat)
    requires i <= |b|
    ensures CommaFrom(p + b, |p| + i) == |p| + CommaFrom(b, i)
    decreases |b| - i
  {
    if i < |b| && b[i] != ',' {
      CommaFromShift(p, b, i + 1);
    }
  }

  lemma {:induction false} QuoteEndShift(p: string, b: string, i: nat)
    ensures QuoteEnd(p + b, |p| + i) == |p| + QuoteEnd(b, i)
    decreases |b| - i
  {
    if i < |b| && b[i] != '"' {
      QuoteEndShift(p, b, if b[i] == '\\' then i + 2 else i + 1);
    }
  }

  lemma QuotedJoin(a: string, b: string, i: nat)
    requires i < |a| && BlankEnd(a, i) < |a| && a[BlankEnd(a, i)] == '"' && WellFormedFrom(a, i)
    ensures var s := Join(a, b);
            var start := BlankEnd(a, i);
            var close := QuoteEnd(a, start + 1);
            close < |a| &&
            var next, token := BlankEnd(a, close + 1), TrimEnd(a[start + 1..close]);
            && WellFormedFrom(a, next + 1)
            && ElementsFrom(s, i) == [token] + ElementsFrom(s, next + 1)
            && ElementsFrom(a, i) == [token] + ElementsFrom(a, next + 1)
  {
    hide BlankEnd, CommaFrom, QuoteEnd, TrimEnd, Bare, ElementsFrom;
    var s := Join(a, b);
    BlankEndJoin(a, b, i);
    var start := BlankEnd(a, i);
    QuotedFirst(a, i);
    QuotedFirst(s, i);
    QuoteEndJoin(a, b, start + 1);
    var close := QuoteEnd(a, start + 1);
    BlankEndJoin(a, b, close + 1);
    SliceJoin(a, b, start + 1, close);
    var next := BlankEnd(a, close + 1);
    if next == |a| {
      NothingFrom(a, next + 1);
      assert WellFormedFrom(a, next + 1);
    }
  }

  lemma BareJoin(a: string, b: string, i: nat)
    requires i < |a| && !(BlankEnd(a, i) < |a| && a[BlankEnd(a, i)] == '"') && WellFormedFrom(a, i)
    ensures var s := Join(a, b);
            var start := BlankEnd(a, i);
            var end := CommaFrom(a, start);
            var bare := Bare(start - i, a[start..end]);
            && WellFormedFrom(a, end + 1)
            && ElementsFrom(s, i) == bare + ElementsFrom(s, end + 1)
            && ElementsFrom(a, i) == bare + ElementsFrom(a, end + 1)
  {
    hide BlankEnd, CommaFrom, QuoteEnd, TrimEnd, Bare, ElementsFrom;
    BlankEndJoin(a, b, i);
    var start := BlankEnd(a, i);
    CommaFromJoin(a, b, start);
    BareFirst(a, i);
    BareFirst(Join(a, b), i);
    SliceJoin(a, b, start, CommaFrom(a, start));
  }

  lemma SliceJoin(a: string, b: string, i: nat, j: nat)
    requires i <= j <= |a|
    ensures Join(a, b)[i..j] == a[i..j]
  {
  }

  lemma NothingFrom(s: string, i: nat)
    requires i >= |s|
    ensures ElementsFrom(s, i) == []
  {
  }

  lemma AtComma(s: string, i: nat)
    requires i < |s| && s[i] == ','
    ensures BlankEnd(s, i) == i && CommaFrom(s, i) == i
    ensures Bare(0, "") == [""]
  {
  }

  /** At the comma between the values. */
  lemma CommaJoin(a: string, b: string)
    ensures ElementsFrom(Join(a, b), |a|) == [""] + ElementsFrom(Join(a, b), |a| + 1)
  {
    hide BlankEnd, CommaFrom, Bare, ElementsFrom;
    var s := Join(a, b);
    AtComma(s, |a|);
    BareFirst(s, |a|);
    assert s[|a|..|a|] == "";
  }

  /** The first element, and what is read behind it, is that of the first value. */
  lemma FirstJoin(a: string, b: string, i: nat) returns (first: seq<string>, next: nat)
    requires i < |a| && WellFormedFrom(a, i)
    ensures i < next <= |a| + 1 && WellFormedFrom(a, next)
    ensures ElementsFrom(Join(a, b), i) == first + ElementsFrom(Join(a, b), next)
    ensures ElementsFrom(a, i) == first + ElementsFrom(a, next)
  {
    hide ElementsFrom, BlankEnd, CommaFrom, QuoteEnd, Bare, TrimEnd, WellFormedFrom, Join;
    var start := BlankEnd(a, i);
    if start < |a| && a[start] == '"' {
      QuotedJoin(a, b, i);
      var close := QuoteEnd(a, start + 1);
      first, next := [TrimEnd(a[start + 1..close])], BlankEnd(a, close + 1) + 1;
    } else {
      BareJoin(a, b, i);
      first, next := Bare(start - i, a[start..CommaFrom(a, start)]), CommaFrom(a, start) + 1;
    }
  }

  /** Reading on from `i` inside the first value. */
  lemma {:induction false} ElementsJoin(a: string, b: string, i: nat)
    requires i <= |a| + 1 && WellFormedFrom(a, i)
    ensures var s := Join(a, b);
            Filled(ElementsFrom(s, i)) == Filled(ElementsFrom(a, i)) + Filled(ElementsFrom(s, |a| + 1))
    decreases |a| + 1 - i
  {
    hide ElementsFrom, Filled, WellFormedFrom, Join;
    var s := Join(a, b);
    var last := ElementsFrom(s, |a| + 1);
    if i >= |a| {
      NothingFrom(a, i);
      FilledEmpty();
      CommaJoin(a, b);
      FilledAppend([""], last);
      FilledAppend([], last);
      assert [] + last == last;
    } else {
      var first, next := FirstJoin(a, b, i);
      ElementsJoin(a, b, next);
      FilledAppend(first, ElementsFrom(s, next));
      FilledAppend(first, ElementsFrom(a, next));
    }
  }

  /** Joining loses and invents nothing and keeps the order, if the quoted elements of the first value are
      well formed. */
  lemma JoinHomomorphism(a: string, b: string)
    requires WellFormed(a)
    ensures Filled(Elements(Join(a, b))) == Filled(Elements(a)) + Filled(Elements(b))
  {
    hide ElementsFrom, Filled;
    ElementsJoin(a, b, 0);
    assert Join(a, b) == (a + ",") + b;
    ElementsFromShift(a + ",", b, 0);
  }

  lemma JoinContains(a: string, b: string, token: string)
    requires WellFormed(a) && token != ""
    ensures token in Elements(Join(a, b)) <==> token in Elements(a) || token in Elements(b)
  {
    hide Elements, Filled;
    JoinHomomorphism(a, b);
    FilledHas(Elements(Join(a, b)), token);
    FilledHas(Elements(a), token);
    FilledHas(Elements(b), token);
  }

  /** A malformed first value hides a second one that has no quote in it: reading has stopped. */
  lemma {:induction false} MalformedStops(a: string, b: string, i: nat, token: string)
    requires i <= |a| && !WellFormedFrom(a, i) && '"' !in b
    ensures InRest(Join(a, b), i, token) <==> InRest(a, i, token)
    decreases |a| - i
  {
    hide InRest, ElementsFrom, ElementAt, BlankEnd, CommaFrom, QuoteEnd;
    var s := Join(a, b);
    ElementStep(s, i, token);
    ElementStep(a, i, token);
    BlankEndJoin(a, b, i);
    var start := BlankEnd(a, i);
    if start < |a| && a[start] == '"' {
      QuoteEndJoin(a, b, start + 1);
      var close := QuoteEnd(a, start + 1);
      if close < |a| {
        SameElement(a, b, true, i, start + 1, close);
        BlankEndJoin(a, b, close + 1);
        var next := BlankEnd(a, close + 1);
        if next < |a| && a[next] == ',' {
          MalformedStops(a, b, next + 1, token);
        }
      }
    } else {
      CommaFromJoin(a, b, start);
      SameElement(a, b, false, i, start, CommaFrom(a, start));
      MalformedStops(a, b, CommaFrom(a, start) + 1, token);
    }
  }

  ghost predicate JoinsFaithfully(a: string) {
    forall b, token: string | token != "" ::
      token in Elements(Join(a, b)) <==> token in Elements(a) || token in Elements(b)
  }

  /** Some name that is neither empty nor an element of `a`. */
  function Fresh(taken: seq<string>): (t: string)
    ensures t != "" && t !in taken && forall k :: 0 <= k < |t| ==> t[k] == 'x'
  {
    FreshFrom(taken, LongerThanAll(taken))
  }

  function LongerThanAll(taken: seq<string>): (n: nat)
    ensures forall t :: t in taken ==> |t| < n
  {
    if taken == [] then 0
    else
      var n := LongerThanAll(taken[1..]);
      if n <= |taken[0]| then |taken[0]| + 1 else n
  }

  function FreshFrom(taken: seq<string>, n: nat): (t: string)
    requires forall t :: t in taken ==> |t| < n
    ensures t != "" && t !in taken && forall k :: 0 <= k < |t| ==> t[k] == 'x'
  {
    seq(n + 1, _ => 'x')
  }

  /** Exactly the well-formed values can be joined with anything. */
  lemma JoinExactness(a: string)
    ensures JoinsFaithfully(a) <==> WellFormed(a)
  {
    if WellFormed(a) {
      forall b, token: string | token != ""
        ensures token in Elements(Join(a, b)) <==> token in Elements(a) || token in Elements(b)
      {
        JoinContains(a, b, token);
      }
    } else {
      var token := Fresh(Elements(a));
      MalformedStops(a, token, 0, token);
      InRestEnds(a, token);
      InRestEnds(Join(a, token), token);
      BareToken(token);
    }
  }

  /** A name of plain letters is the list of itself. */
  lemma BareToken(token: string)
    requires token != "" && forall k :: 0 <= k < |token| ==> token[k] == 'x'
    ensures Elements(token) == [token]
  {
    CommaFromNone(token, 0);
    assert token[0..|token|] == token;
    assert BlankEnd(token, 0) == 0 && token[0] != '"';
    assert Bare(0, token) == [token];
    assert ElementsFrom(token, |token| + 1) == [];
  }

  lemma {:induction false} CommaFromNone(s: string, i: nat)
    requires i <= |s| && ',' !in s[i..]
    ensures CommaFrom(s, i) == |s|
    decreases |s| - i
  {
    if i < |s| {
      assert s[i] in s[i..];
      CommaFromNone(s, i + 1);
    }
  }

  /** Well-formedness survives joining. */
  lemma {:induction false} WellFormedJoin(a: string, b: string, i: nat)
    requires i <= |a| + 1 && WellFormedFrom(a, i) && WellFormed(b)
    ensures WellFormedFrom(Join(a, b), i)
    decreases |a| + 1 - i
  {
    hide BlankEnd, CommaFrom, QuoteEnd;
    var s := Join(a, b);
    if i == |a| + 1 {
      assert s == (a + ",") + b;
      WellFormedShift(a + ",", b, 0);
    } else {
      BlankEndJoin(a, b, i);
      var start := BlankEnd(a, i);
      if start < |a| && a[start] == '"' {
        QuoteEndJoin(a, b, start + 1);
        var close := QuoteEnd(a, start + 1);
        BlankEndJoin(a, b, close + 1);
        WellFormedJoin(a, b, BlankEnd(a, close + 1) + 1);
      } else {
        CommaFromJoin(a, b, start);
        WellFormedJoin(a, b, CommaFrom(a, start) + 1);
      }
    }
  }

  lemma {:induction false} WellFormedShift(p: string, b: string, i: nat)
    requires WellFormedFrom(b, i)
    ensures WellFormedFrom(p + b, |p| + i)
    decreases |b| - i
  {
    hide BlankEnd, CommaFrom, QuoteEnd;
    if i < |b| {
      BlankEndShift(p, b, i);
      var start := BlankEnd(b, i);
      if start < |b| && b[start] == '"' {
        QuoteEndShift(p, b, start + 1);
        var close := QuoteEnd(b, start + 1);
        BlankEndShift(p, b, close + 1);
        var next := BlankEnd(b, close + 1);
        if next < |b| {
          WellFormedShift(p, b, next + 1);
        }
      } else {
        CommaFromShift(p, b, start);
        WellFormedShift(p, b, CommaFrom(b, start) + 1);
      }
    }
  }
}
