/** The list grammar of sections 5.6.1 and 5.6.4 of RFC 9110 from the side of the one who writes the
    list: elements, bare or in quotes, with blanks around them and commas between. */
module ListGrammar {
  import opened Utils
  import opened ListJoin

  predicate Blanks(s: string) {
    forall k :: 0 <= k < |s| ==> s[k] == ' ' || s[k] == '\t'
  }

  /** Text that may stand in quotes: a backslash takes the next byte with it, and no other byte is a
      quote. */
  predicate QuotedText(s: string) {
    if s == "" then true
    else if s[0] == '\\' then |s| > 1 && QuotedText(s[2..])
    else s[0] != '"' && QuotedText(s[1..])
  }

  /** An element as it is written. In quotes, `pad` is what stands between it and the closing quote. */
  datatype Item =
    | Plain(before: string, token: string, after: string)
    | Quoted(before: string, token: string, pad: string, after: string)

  function ItemText(x: Item): string {
    match x
    case Plain(before, token, after) => before + token + after
    case Quoted(before, token, pad, after) => before + "\"" + token + pad + "\"" + after
  }

  /** A token neither begins nor ends with a blank when it is bare, and has no comma in it; in quotes
      it may begin with one. */
  predicate GoodItem(x: Item) {
    match x
    case Plain(before, token, after) =>
      && Blanks(before) && Blanks(after) && ',' !in token
      && (token != "" ==> token[0] !in {'"', ' ', '\t'} && token[|token| - 1] !in {' ', '\t'})
    case Quoted(before, token, pad, after) =>
      && Blanks(before) && Blanks(pad) && Blanks(after) && QuotedText(token + pad)
      && (token != "" ==> token[|token| - 1] !in {' ', '\t'})
  }

  predicate GoodItems(xs: seq<Item>) {
    forall k :: 0 <= k < |xs| ==> GoodItem(xs[k])
  }

  /** The items with commas between them. */
  function ListText(xs: seq<Item>): string {
    if xs == [] then ""
    else if |xs| == 1 then ItemText(xs[0])
    else Join(ItemText(xs[0]), ListText(xs[1..]))
  }

  function Tokens(xs: seq<Item>): seq<string> {
    if xs == [] then [] else [xs[0].token] + Tokens(xs[1..])
  }

  /** The value begins with a list that ends with `token`, and goes on with a comma or not at all; behind
      a quoted element it may go on with anything, since the element has been read by then. */
  ghost predicate Lists(value: string, token: string) {
    exists xs, rest :: ListsAs(value, token, xs, rest)
  }

  predicate ListsAs(value: string, token: string, xs: seq<Item>, rest: string) {
    && xs != [] && GoodItems(xs) && xs[|xs| - 1].token == token
    && value == ListText(xs) + rest
    && (xs[|xs| - 1].Quoted? || rest == "" || rest[0] == ',')
  }

  // --------------------------------------------------------- the scan of one item

  lemma {:induction false} BlankEndAt(s: string, i: nat, n: nat)
    requires i <= n <= |s| && Blanks(s[i..n]) && (n == |s| || s[n] !in {' ', '\t'})
    ensures BlankEnd(s, i) == n
    decreases n - i
  {
    if i < n {
      assert s[i] == s[i..n][0];
      assert s[i + 1..n] == s[i..n][1..];
      BlankEndAt(s, i + 1, n);
    }
  }

  lemma {:induction false} CommaFromAt(s: string, i: nat, n: nat)
    requires i <= n <= |s| && ',' !in s[i..n] && (n == |s| || s[n] == ',')
    ensures CommaFrom(s, i) == n
    decreases n - i
  {
    if i < n {
      assert s[i] == s[i..n][0];
      assert s[i + 1..n] == s[i..n][1..];
      CommaFromAt(s, i + 1, n);
    }
  }

  lemma {:induction false} QuoteEndAt(s: string, i: nat, n: nat)
    requires i <= n < |s| && QuotedText(s[i..n]) && s[n] == '"'
    ensures QuoteEnd(s, i) == n
    decreases n - i
  {
    if i < n {
      assert s[i] == s[i..n][0];
      if s[i] == '\\' {
        assert s[i + 2..n] == s[i..n][2..];
        QuoteEndAt(s, i + 2, n);
      } else {
        assert s[i + 1..n] == s[i..n][1..];
        QuoteEndAt(s, i + 1, n);
      }
    }
  }

  lemma {:induction false} QuoteEndQuotes(s: string, i: nat)
    requires i <= |s| && QuoteEnd(s, i) < |s|
    ensures i <= QuoteEnd(s, i) && QuotedText(s[i..QuoteEnd(s, i)])
    decreases |s| - i
  {
    var n := QuoteEnd(s, i);
    if s[i] != '"' {
      var next := if s[i] == '\\' then i + 2 else i + 1;
      QuoteEndQuotes(s, next);
      assert s[i..n][0] == s[i] && s[i..n][next - i..] == s[next..n];
    }
  }

  lemma {:induction false} NoCommaBefore(s: string, i: nat)
    requires i <= |s|
    ensures ',' !in s[i..CommaFrom(s, i)]
    decreases |s| - i
  {
    if i < |s| && s[i] != ',' {
      NoCommaBefore(s, i + 1);
      assert s[i..CommaFrom(s, i)] == [s[i]] + s[i + 1..CommaFrom(s, i)];
    }
  }

  lemma TrimEndOf(token: string, pad: string)
    requires Blanks(pad) && (token != "" ==> token[|token| - 1] !in {' ', '\t'})
    ensures TrimEnd(token + pad) == token
  {
    TrimEndIs(token + pad, |token|);
  }

  /** What is cut off is blank, and what is left does not end with a blank. */
  lemma {:induction false} TrimEndFacts(s: string)
    ensures var r := TrimEnd(s);
            r <= s && Blanks(s[|r|..]) && (r != "" ==> r[|r| - 1] !in {' ', '\t'})
  {
    if s != "" && IsBlank(s[|s| - 1]) {
      TrimEndFacts(s[..|s| - 1]);
      assert s[|TrimEnd(s)|..] == s[..|s| - 1][|TrimEnd(s)|..] + [s[|s| - 1]];
    }
  }

  /** What is read of an item: its token, but blanks alone are no element. */
  function Read(x: Item): seq<string> {
    if x.Plain? && x.token == "" && x.before + x.after != "" then [] else [x.token]
  }

  lemma PlainParts(s: string, x: Item, rest: string)
    requires x.Plain? && GoodItem(x) && s == ItemText(x) + rest
    ensures |s| == |ItemText(x)| + |rest| && (rest != "" ==> s[|ItemText(x)|] == rest[0])
    ensures var lead := if x.token == "" then x.before + x.after else x.before;
            var text := if x.token == "" then "" else x.token + x.after;
            |lead| <= |ItemText(x)| && s[0..|lead|] == lead && s[|lead|..|ItemText(x)|] == text
  {
  }

  lemma PlainIsGood(x: Item)
    requires x.Plain? && GoodItem(x)
    ensures Blanks(x.before + x.after) && Blanks(x.before) && ',' !in x.token + x.after
    ensures TrimEnd(x.token + x.after) == x.token && TrimEnd("") == ""
    ensures x.token != "" ==> (x.token + x.after)[0] !in {'"', ' ', '\t'}
  {
    TrimEndOf(x.token, x.after);
  }

  lemma PlainScan(s: string, x: Item, rest: string)
    requires x.Plain? && GoodItem(x) && s == ItemText(x) + rest && (rest == "" || rest[0] == ',')
    ensures var start := BlankEnd(s, 0);
            var end := |ItemText(x)|;
            && start <= end && (start == |s| || s[start] != '"') && CommaFrom(s, start) == end
            && Bare(start, s[start..end]) == Read(x)
  {
    hide BlankEnd, CommaFrom, TrimEnd, ItemText, Blanks, GoodItem;
    PlainParts(s, x, rest);
    PlainIsGood(x);
    var lead := if x.token == "" then x.before + x.after else x.before;
    ScanAt(s, lead, if x.token == "" then "" else x.token + x.after, rest);
  }

  /** Blanks, then text without a comma that does not begin with a blank, then a comma or the end. */
  lemma ScanAt(s: string, lead: string, text: string, rest: string)
    requires |s| == |lead| + |text| + |rest| && s[0..|lead|] == lead && s[|lead|..|lead| + |text|] == text
    requires Blanks(lead) && ',' !in text && (rest == "" || (rest[0] == ',' && s[|lead| + |text|] == ','))
    requires text != "" ==> text[0] !in {'"', ' ', '\t'}
    ensures BlankEnd(s, 0) == |lead| && CommaFrom(s, |lead|) == |lead| + |text|
    ensures |lead| == |s| || s[|lead|] != '"'
  {
    hide BlankEnd, CommaFrom;
    assert text != "" ==> s[|lead|] == s[|lead|..|lead| + |text|][0];
    BlankEndAt(s, 0, |lead|);
    CommaFromAt(s, |lead|, |lead| + |text|);
  }

  lemma QuotedParts(s: string, x: Item, rest: string)
    requires x.Quoted? && s == ItemText(x) + rest
    ensures var start := |x.before|;
            var close := start + 1 + |x.token + x.pad|;
            && |s| == |ItemText(x)| + |rest| && (rest != "" ==> s[|ItemText(x)|] == rest[0])
            && |ItemText(x)| == close + 1 + |x.after|
            && s[0..start] == x.before && s[start] == '"'
            && s[start + 1..close] == x.token + x.pad && s[close] == '"'
            && s[close + 1..|ItemText(x)|] == x.after
  {
  }

  /** Blanks, a quoted text, blanks, then anything else. */
  lemma QuoteAt(s: string, start: nat, close: nat, end: nat)
    requires start < close < end <= |s| && Blanks(s[0..start]) && s[start] == '"'
    requires QuotedText(s[start + 1..close]) && s[close] == '"' && Blanks(s[close + 1..end])
    ensures BlankEnd(s, 0) == start && QuoteEnd(s, start + 1) == close
    ensures end == |s| || s[end] == ',' ==> BlankEnd(s, close + 1) == end
  {
    hide BlankEnd, QuoteEnd, QuotedText, Blanks;
    BlankEndAt(s, 0, start);
    QuoteEndAt(s, start + 1, close);
    if end == |s| || s[end] == ',' {
      BlankEndAt(s, close + 1, end);
    }
  }

  lemma QuotedIsGood(x: Item)
    requires x.Quoted? && GoodItem(x)
    ensures Blanks(x.before) && Blanks(x.after) && QuotedText(x.token + x.pad) && TrimEnd(x.token + x.pad) == x.token
  {
    TrimEndOf(x.token, x.pad);
  }

  lemma QuotedScan(s: string, x: Item, rest: string)
    requires x.Quoted? && GoodItem(x) && s == ItemText(x) + rest
    ensures var start := BlankEnd(s, 0);
            var close := start + 1 + |x.token + x.pad|;
            && start == |x.before| && close < |s| && s[start] == '"' && QuoteEnd(s, start + 1) == close
            && TrimEnd(s[start + 1..close]) == x.token
            && (|ItemText(x)| == |s| || s[|ItemText(x)|] == ',' ==> BlankEnd(s, close + 1) == |ItemText(x)|)
  {
    hide BlankEnd, QuoteEnd, TrimEnd, QuotedText, ItemText, Blanks, GoodItem;
    QuotedParts(s, x, rest);
    QuotedIsGood(x);
    QuoteAt(s, |x.before|, |x.before| + 1 + |x.token + x.pad|, |ItemText(x)|);
  }

  lemma PlainRead(s: string, x: Item, rest: string)
    requires x.Plain? && GoodItem(x) && s == ItemText(x) + rest && (rest == "" || rest[0] == ',') && s != ""
    ensures Elements(s) == Read(x) + ElementsFrom(s, |ItemText(x)| + 1)
  {
    PlainScan(s, x, rest);
    hide BlankEnd, CommaFrom, Bare, ElementsFrom, ItemText, GoodItem, Read;
    BareFirst(s, 0);
  }

  lemma QuotedRead(s: string, x: Item, rest: string)
    requires x.Quoted? && GoodItem(x) && s == ItemText(x) + rest && (rest == "" || rest[0] == ',')
    ensures Elements(s) == Read(x) + ElementsFrom(s, |ItemText(x)| + 1)
  {
    hide BlankEnd, QuoteEnd, TrimEnd, ElementsFrom, ItemText, GoodItem;
    QuotedParts(s, x, rest);
    QuotedScan(s, x, rest);
    QuotedFirst(s, 0);
    if rest == "" {
      NothingBehind(s, |ItemText(x)| + 1);
    }
  }

  /** An item alone, or in front of a comma. */
  lemma ItemRead(x: Item, rest: string)
    requires GoodItem(x) && (rest == "" || rest[0] == ',') && ItemText(x) + rest != ""
    ensures Elements(ItemText(x) + rest) == Read(x) + ElementsFrom(ItemText(x) + rest, |ItemText(x)| + 1)
  {
    hide GoodItem, Elements, ElementsFrom, Read;
    if x.Plain? {
      PlainRead(ItemText(x) + rest, x, rest);
    } else {
      QuotedRead(ItemText(x) + rest, x, rest);
    }
  }

  lemma NothingBehind(s: string, i: nat)
    requires i >= |s|
    ensures ElementsFrom(s, i) == []
  {
  }

  lemma FirstItem(x: Item, value: string)
    requires GoodItem(x)
    ensures Elements(Join(ItemText(x), value)) == Read(x) + Elements(value)
  {
    hide GoodItem, ItemText, Read, ElementsFrom;
    var rest := "," + value;
    assert Join(ItemText(x), value) == ItemText(x) + rest;
    ItemRead(x, rest);
    assert ItemText(x) + rest == (ItemText(x) + ",") + value;
    ElementsFromShift(ItemText(x) + ",", value, 0);
  }

  lemma LastItem(x: Item)
    requires GoodItem(x) && ItemText(x) != ""
    ensures Elements(ItemText(x)) == Read(x)
  {
    hide GoodItem, ItemText, Read, ElementsFrom;
    assert ItemText(x) + "" == ItemText(x);
    ItemRead(x, "");
    NothingBehind(ItemText(x), |ItemText(x)| + 1);
  }

  /** List round trip: items with tokens in them are read back as these tokens, whatever blanks stand
      around them and between the quotes and them. */
  lemma {:induction false} ListReadBack(xs: seq<Item>)
    requires GoodItems(xs) && forall k :: 0 <= k < |xs| ==> xs[k].token != ""
    ensures Elements(ListText(xs)) == Tokens(xs)
    decreases |xs|
  {
    hide GoodItem, ElementsFrom;
    if xs == [] {
      NothingBehind("", 0);
    } else {
      assert |ItemText(xs[0])| >= |xs[0].token|;
      if |xs| == 1 {
        assert xs[1..] == [];
        LastItem(xs[0]);
      } else {
        ListReadBack(xs[1..]);
        FirstItem(xs[0], ListText(xs[1..]));
      }
    }
  }

  // ------------------------------------------------------------ which tokens a value lists

  lemma ListTextFirst(x: Item, xs: seq<Item>)
    requires xs != []
    ensures ListText([x] + xs) == Join(ItemText(x), ListText(xs))
  {
    assert ([x] + xs)[1..] == xs;
  }

  lemma ListsBehind(x: Item, value: string, token: string)
    requires GoodItem(x) && Lists(value, token)
    ensures Lists(Join(ItemText(x), value), token)
  {
    hide ItemText, GoodItem, ListText;
    var xs, rest :| ListsAs(value, token, xs, rest);
    ListTextFirst(x, xs);
    assert ListsAs(Join(ItemText(x), value), token, [x] + xs, rest);
  }

  lemma LastFound(x: Item, rest: string)
    requires GoodItem(x) && x.token != "" && (x.Quoted? || rest == "" || rest[0] == ',')
    ensures x.token in Elements(ItemText(x) + rest)
  {
    hide BlankEnd, QuoteEnd, TrimEnd, ElementsFrom, ItemText, GoodItem, Elements;
    var s := ItemText(x) + rest;
    if x.Plain? {
      PlainParts(s, x, rest);
      assert s != "" by {
        TextAround(x);
      }
      PlainRead(s, x, rest);
    } else {
      QuotedScan(s, x, rest);
      assert Elements(s) == ElementsFrom(s, 0) by {
        ElementsIs(s);
      }
      QuotedFirst(s, 0);
    }
  }

  lemma ElementsIs(s: string)
    ensures Elements(s) == ElementsFrom(s, 0)
  {
  }

  lemma TextAround(x: Item)
    ensures |ItemText(x)| >= |x.token|
  {
  }

  lemma {:induction false} ListsFound(token: string, xs: seq<Item>, rest: string)
    requires xs != [] && GoodItems(xs) && xs[|xs| - 1].token == token != ""
    requires xs[|xs| - 1].Quoted? || rest == "" || rest[0] == ','
    ensures token in Elements(ListText(xs) + rest)
    decreases |xs|
  {
    hide GoodItem, ItemText, Elements;
    if |xs| == 1 {
      LastFound(xs[0], rest);
    } else {
      ListsFound(token, xs[1..], rest);
      FirstItem(xs[0], ListText(xs[1..]) + rest);
      assert ListText(xs) + rest == Join(ItemText(xs[0]), ListText(xs[1..]) + rest);
    }
  }

  lemma Cut(value: string, end: nat)
    requires end < |value| && value[end] == ','
    ensures value == Join(value[..end], value[end + 1..])
    ensures ElementsFrom(value, end + 1) == Elements(value[end + 1..])
  {
    hide ElementsFrom;
    var p := value[..end + 1];
    assert value == p + value[end + 1..];
    ElementsFromShift(p, value[end + 1..], 0);
  }

  /** Text as an item, bare or in quotes. */
  lemma PlainMade(before: string, text: string) returns (x: Item)
    requires Blanks(before) && ',' !in text && (text != "" ==> text[0] !in {'"', ' ', '\t'})
    ensures x.Plain? && GoodItem(x) && ItemText(x) == before + text && x.token == TrimEnd(text)
  {
    hide TrimEnd;
    TrimEndFacts(text);
    var token := TrimEnd(text);
    x := Plain(before, token, text[|token|..]);
    assert text == token + x.after;
  }

  lemma QuotedMade(before: string, text: string) returns (x: Item)
    requires Blanks(before) && QuotedText(text)
    ensures x.Quoted? && GoodItem(x) && ItemText(x) == before + "\"" + text + "\"" && x.token == TrimEnd(text)
    ensures x.after == ""
  {
    hide TrimEnd, QuotedText;
    TrimEndFacts(text);
    var token := TrimEnd(text);
    x := Quoted(before, token, text[|token|..], "");
    assert text == token + x.pad;
    assert ItemText(x) == before + "\"" + (token + x.pad) + "\"" + "";
  }

  lemma BlanksBefore(value: string, from: nat)
    requires from <= |value|
    ensures Blanks(value[from..BlankEnd(value, from)])
  {
    BlankEndBlanks(value, from);
  }

  /** The bare element at the front of a value as an item. */
  lemma PlainItem(value: string) returns (x: Item)
    requires !(BlankEnd(value, 0) < |value| && value[BlankEnd(value, 0)] == '"')
    ensures var start := BlankEnd(value, 0);
            var end := CommaFrom(value, start);
            && x.Plain? && GoodItem(x) && ItemText(x) == value[..end] && x.token == TrimEnd(value[start..end])
  {
    hide CommaFrom, TrimEnd, GoodItem, ItemText, Blanks;
    BlanksBefore(value, 0);
    var start := BlankEnd(value, 0);
    NoCommaBefore(value, start);
    var end := CommaFrom(value, start);
    NotBlankAt(value, 0);
    x := PlainMade(value[0..start], value[start..end]);
    assert value[..end] == value[0..start] + value[start..end];
  }

  lemma NotBlankAt(value: string, from: nat)
    requires from <= |value|
    ensures var e := BlankEnd(value, from); e < |value| ==> value[e] !in {' ', '\t'}
  {
  }

  /** The quoted element at the front of a value as an item. */
  lemma QuotedItem(value: string) returns (x: Item)
    requires BlankEnd(value, 0) < |value| && value[BlankEnd(value, 0)] == '"'
    requires QuoteEnd(value, BlankEnd(value, 0) + 1) < |value|
    ensures var start := BlankEnd(value, 0);
            var close := QuoteEnd(value, start + 1);
            && x.Quoted? && GoodItem(x) && x.after == "" && ItemText(x) == value[..close + 1]
            && x.token == TrimEnd(value[start + 1..close])
  {
    hide BlankEnd, QuoteEnd, TrimEnd, GoodItem, ItemText, Blanks, QuotedText;
    BlanksBefore(value, 0);
    var start := BlankEnd(value, 0);
    QuoteEndQuotes(value, start + 1);
    var close := QuoteEnd(value, start + 1);
    x := QuotedMade(value[0..start], value[start + 1..close]);
    assert value[..close + 1] == value[0..start] + "\"" + value[start + 1..close] + "\"";
  }

  lemma ItemAlone(value: string, x: Item, end: nat)
    requires GoodItem(x) && end <= |value| && ItemText(x) == value[..end]
    requires x.Quoted? || end == |value| || value[end] == ','
    ensures Lists(value, x.token)
  {
    assert value == ListText([x]) + value[end..];
    assert ListsAs(value, x.token, [x], value[end..]);
  }

  lemma WithBlanks(value: string, x: Item, from: nat) returns (y: Item)
    requires x.Quoted? && x.after == "" && GoodItem(x) && from <= |value| && ItemText(x) == value[..from]
    ensures y.Quoted? && GoodItem(y) && ItemText(y) == value[..BlankEnd(value, from)]
  {
    hide BlankEnd, QuotedText, Blanks;
    BlanksBefore(value, from);
    y := x.(after := value[from..BlankEnd(value, from)]);
    assert ItemText(y) == ItemText(x) + y.after;
  }

  lemma {:induction false} FoundLists(value: string, token: string)
    requires token != "" && token in Elements(value)
    ensures Lists(value, token)
    decreases |value|
  {
    hide BlankEnd, QuoteEnd, CommaFrom, TrimEnd, ElementsFrom, ItemText, GoodItem, Lists;
    assert value != "" by {
      NothingBehind("", 0);
    }
    var start := BlankEnd(value, 0);
    if start < |value| && value[start] == '"' {
      QuotedFirst(value, 0);
      var close := QuoteEnd(value, start + 1);
      var x := QuotedItem(value);
      if x.token == token {
        ItemAlone(value, x, close + 1);
      } else {
        var next := BlankEnd(value, close + 1);
        var y := WithBlanks(value, x, close + 1);
        FoundBehind(value, y, next, token);
      }
    } else {
      BareFirst(value, 0);
      var end := CommaFrom(value, start);
      var x := PlainItem(value);
      if x.token == token {
        ItemAlone(value, x, end);
      } else {
        NothingBehind(value, |value| + 1);
        FoundBehind(value, x, end, token);
      }
    }
  }

  lemma FoundBehind(value: string, x: Item, end: nat, token: string)
    requires GoodItem(x) && end < |value| && value[end] == ',' && ItemText(x) == value[..end]
    requires token != "" && token in ElementsFrom(value, end + 1)
    ensures Lists(value, token)
    decreases |value|, 0
  {
    hide GoodItem, ItemText, ElementsFrom, Lists;
    Cut(value, end);
    FoundLists(value[end + 1..], token);
    ListsBehind(x, value[end + 1..], token);
  }

  /** Reading a list, for every value, well formed or not, and every token: the elements are the tokens
      that the value lists. */
  lemma ElementsExactly(value: string, token: string)
    requires token != ""
    ensures token in Elements(value) <==> Lists(value, token)
  {
    hide Elements, GoodItems, ListText;
    if token in Elements(value) {
      FoundLists(value, token);
    }
    if Lists(value, token) {
      var xs, rest :| ListsAs(value, token, xs, rest);
      ListsFound(token, xs, rest);
    }
  }
}
