/** src/networking/Utils.h: the scanner of comma-separated header values, and the case folder. */
module Utils {
  import opened Text

  // ------------------------------------------------- the list grammar the scanner is held to

  predicate IsBlank(c: char) {
    c == ' ' || c == '\t'
  }

  /** The first position from `i` on that holds no blank. */
  function BlankEnd(s: string, i: nat): (e: nat)
    requires i <= |s|
    ensures i <= e <= |s| && (e == |s| || !IsBlank(s[e]))
    decreases |s| - i
  {
    if i < |s| && IsBlank(s[i]) then BlankEnd(s, i + 1) else i
  }

  /** The first comma from `i` on, or the end. */
  function CommaFrom(s: string, i: nat): (e: nat)
    requires i <= |s|
    ensures i <= e <= |s| && (e == |s| || s[e] == ',')
    decreases |s| - i
  {
    if i < |s| && s[i] != ',' then CommaFrom(s, i + 1) else i
  }

  /** The closing quote of a quoted string read from `i` on, or the end when it has none; a
      backslash takes the next byte with it. */
  function QuoteEnd(s: string, i: nat): (e: nat)
    ensures e <= |s| && (e == |s| || (i <= e && s[e] == '"'))
    decreases |s| - i
  {
    if i >= |s| then |s|
    else if s[i] == '"' then i
    else QuoteEnd(s, if s[i] == '\\' then i + 2 else i + 1)
  }

  function TrimEnd(text: string): (r: string)
    ensures r <= text
  {
    if text != "" && IsBlank(text[|text| - 1]) then TrimEnd(text[..|text| - 1]) else text
  }

  /** A bare element that is empty after leading blanks is no element. */
  function Bare(blanks: nat, text: string): seq<string> {
    if TrimEnd(text) == "" && blanks > 0 then [] else [TrimEnd(text)]
  }

  /** The elements read from position `i` on: quoted strings with their escapes left raw, or
      bare text; trailing blanks dropped; reading stops at the first malformed quoted element. */
  function ElementsFrom(s: string, i: nat): seq<string>
    decreases |s| - i
  {
    if i >= |s| then []
    else
      var start := BlankEnd(s, i);
      if start < |s| && s[start] == '"' then
        var close := QuoteEnd(s, start + 1);
        if close == |s| then []
        else
          var next := BlankEnd(s, close + 1);
          [TrimEnd(s[start + 1..close])] +
          if next < |s| && s[next] == ',' then ElementsFrom(s, next + 1) else []
      else
        var end := CommaFrom(s, start);
        Bare(start - i, s[start..end]) + ElementsFrom(s, end + 1)
  }

  function Elements(s: string): seq<string> {
    ElementsFrom(s, 0)
  }

  /** From `i` on, every quoted element is closed and followed by a comma or the end. */
  predicate WellFormedFrom(s: string, i: nat)
    decreases |s| - i
  {
    i >= |s| ||
    var start := BlankEnd(s, i);
    if start < |s| && s[start] == '"' then
      var close := QuoteEnd(s, start + 1);
      close < |s| &&
      var next := BlankEnd(s, close + 1);
      next == |s| || (s[next] == ',' && WellFormedFrom(s, next + 1))
    else
      WellFormedFrom(s, CommaFrom(s, start) + 1)
  }

  predicate WellFormed(s: string) {
    WellFormedFrom(s, 0)
  }

  // ------------------------------------------------------------------------- the scanner

  method SkipBlanks(value: string, from: nat) returns (i: nat)
    requires from <= |value|
    ensures i == BlankEnd(value, from)
  {
    i := from;
    while i < |value| && (value[i] == ' ' || value[i] == '\t')
      invariant from <= i <= |value| && BlankEnd(value, from) == BlankEnd(value, i)
    {
      i := i + 1;
    }
  }

  /** The loop over a quoted string; a trailing backslash carries the index one past the end. */
  method SkipQuoted(value: string, from: nat) returns (i: nat)
    requires from <= |value|
    ensures QuoteEnd(value, from) == if i < |value| then i else |value|
  {
    i := from;
    while i < |value| && value[i] != '"'
      invariant from <= i <= |value| + 1 && QuoteEnd(value, from) == QuoteEnd(value, i)
      decreases |value| + 1 - i
    {
      if value[i] == '\\' {
        i := i + 1;
      }
      i := i + 1;
    }
  }

  method SkipBare(value: string, from: nat) returns (i: nat)
    requires from <= |value|
    ensures i == CommaFrom(value, from)
  {
    i := from;
    while i < |value| && value[i] != ','
      invariant from <= i <= |value| && CommaFrom(value, from) == CommaFrom(value, i)
    {
      i := i + 1;
    }
  }

  lemma {:induction false} TrimEndIs(s: string, n: nat)
    requires n <= |s| && (n == 0 || !IsBlank(s[n - 1])) && (forall k :: n <= k < |s| ==> IsBlank(s[k]))
    ensures TrimEnd(s) == s[..n]
  {
    if n < |s| {
      TrimEndIs(s[..|s| - 1], n);
    }
  }

  lemma {:induction false} BlankEndBlanks(s: string, i: nat)
    requires i <= |s|
    ensures forall k :: i <= k < BlankEnd(s, i) ==> IsBlank(s[k])
    decreases |s| - i
  {
    if i < |s| && IsBlank(s[i]) {
      BlankEndBlanks(s, i + 1);
    }
  }

  /** The comparison loop. */
  method SameText(value: string, start: nat, token: string) returns (same: bool)
    requires start + |token| <= |value|
    ensures same <==> value[start..start + |token|] == token
  {
    var j := 0;
    while j < |token| && token[j] == value[start + j]
      invariant 0 <= j <= |token|
      invariant forall m :: 0 <= m < j ==> token[m] == value[start + m]
    {
      j := j + 1;
    }
    assert j < |token| ==> value[start..start + |token|][j] == value[start + j];
    same := j == |token|;
  }

  /** The elements that the text between `start` and `end` contributes; a bare element began
      at `head`, before its leading blanks. */
  ghost function ElementAt(value: string, quoted: bool, head: nat, start: nat, end: nat): seq<string>
    requires head <= start <= end <= |value|
  {
    if quoted then [TrimEnd(value[start..end])] else Bare(start - head, value[start..end])
  }

  /** The backward trim. It stops at `low` or before, if what stands there is not a blank. */
  method TrimBack(value: string, ghost low: nat, end: nat) returns (iEnd: nat)
    requires low <= end <= |value| && (low == 0 || !IsBlank(value[low - 1]))
    ensures low <= iEnd <= end && (iEnd == 0 || !IsBlank(value[iEnd - 1]))
    ensures forall j :: iEnd <= j < end ==> IsBlank(value[j])
  {
    iEnd := end;
    while iEnd > 0 && (value[iEnd - 1] == ' ' || value[iEnd - 1] == '\t')
      invariant low <= iEnd <= end
      invariant forall j :: iEnd <= j < end ==> IsBlank(value[j])
    {
      iEnd := iEnd - 1;
    }
  }

  /** The trim, which may run past `start` into the blanks before a bare element, and the
      comparison. */
  method MatchesElement(value: string, ghost quoted: bool, ghost head: nat, start: nat, end: nat, token: string)
    returns (same: bool)
    requires head <= start <= end <= |value|
    requires quoted ==> start > 0 && value[start - 1] == '"'
    requires !quoted ==> start == BlankEnd(value, head) && (head == 0 || value[head - 1] == ',')
    ensures same <==> token in ElementAt(value, quoted, head, start, end)
  {
    hide BlankEnd;
    BlankEndBlanks(value, head);
    var iEnd := TrimBack(value, if quoted then start else head, end);
    ghost var text := value[start..end];
    TrimEndIs(text, if start <= iEnd then iEnd - start else 0);
    same := false;
    if iEnd - start == |token| {
      assert TrimEnd(text) == value[start..iEnd];
      same := SameText(value, start, token);
    }
  }

  ghost predicate InRest(value: string, i: nat, token: string) {
    token in ElementsFrom(value, i)
  }

  lemma InRestEnds(value: string, token: string)
    ensures InRest(value, 0, token) <==> token in Elements(value)
    ensures forall i :: i >= |value| ==> !InRest(value, i, token)
  {
  }

  lemma QuotedStep(value: string, head: nat, token: string)
    requires head < |value| && BlankEnd(value, head) < |value| && value[BlankEnd(value, head)] == '"'
    ensures var start := BlankEnd(value, head);
            var close := QuoteEnd(value, start + 1);
            if close == |value| then !InRest(value, head, token)
            else
              var next := BlankEnd(value, close + 1);
              InRest(value, head, token) <==>
              token in ElementAt(value, true, head, start + 1, close) ||
              (next < |value| && value[next] == ',' && InRest(value, next + 1, token))
  {
    hide TrimEnd, Bare, BlankEnd, CommaFrom, QuoteEnd;
  }

  lemma BareStep(value: string, head: nat, token: string)
    requires head < |value| && !(BlankEnd(value, head) < |value| && value[BlankEnd(value, head)] == '"')
    ensures var start := BlankEnd(value, head);
            var end := CommaFrom(value, start);
            InRest(value, head, token) <==>
            token in ElementAt(value, false, head, start, end) || InRest(value, end + 1, token)
  {
    hide TrimEnd, Bare, BlankEnd, CommaFrom, QuoteEnd;
  }

  /** One element of the grammar, as the scanner walks it. */
  lemma ElementStep(value: string, head: nat, token: string)
    requires head < |value|
    ensures var start := BlankEnd(value, head);
            if start < |value| && value[start] == '"' then
              var close := QuoteEnd(value, start + 1);
              if close == |value| then !InRest(value, head, token)
              else
                var next := BlankEnd(value, close + 1);
                InRest(value, head, token) <==>
                token in ElementAt(value, true, head, start + 1, close) ||
                (next < |value| && value[next] == ',' && InRest(value, next + 1, token))
            else
              var end := CommaFrom(value, start);
              InRest(value, head, token) <==>
              token in ElementAt(value, false, head, start, end) || InRest(value, end + 1, token)
  {
    hide BlankEnd, CommaFrom, QuoteEnd, InRest, ElementAt;
    if BlankEnd(value, head) < |value| && value[BlankEnd(value, head)] == '"' {
      QuotedStep(value, head, token);
    } else {
      BareStep(value, head, token);
    }
  }

  /** `containsToken`: finds `token` exactly when it is an element of the list, for every
      value and every token. */
  method ContainsToken(value: string, token: string) returns (found: bool)
    ensures found <==> token in Elements(value)
  {
    hide InRest, ElementsFrom, ElementAt, BlankEnd, CommaFrom, QuoteEnd;
    InRestEnds(value, token);
    var i: nat := 0;
    found := false;
    while !found && i < |value|
      invariant i <= |value| + 1
      invariant i == 0 || i > |value| || value[i - 1] == ','
      invariant !found && (InRest(value, 0, token) <==> InRest(value, i, token))
      decreases |value| + 1 - i
    {
      ghost var head := i;
      ElementStep(value, head, token);
      var quoted := false;
      i := SkipBlanks(value, i);
      var iStart := i;
      if i < |value| && value[i] == '"' {
        i := i + 1;
        iStart := i;
        quoted := true;
        i := SkipQuoted(value, i);
        if i >= |value| {
          return; // no closing quote
        }
      } else {
        i := SkipBare(value, i);
      }
      found := MatchesElement(value, quoted, head, iStart, i, token);
      if found {
        break;
      }
      i := i + 1;
      if quoted {
        i := SkipBlanks(value, i);
        if i < |value| && value[i] == ',' {
          i := i + 1;
        } else {
          return; // malformed
        }
      }
    }
  }

  /** `toLowerAscii`: the text without capitals that differs from `s` in case only. */
  method ToLowerAscii(s: string) returns (result: string)
    ensures SameButCase(s, result) && NoCapitals(result)
    ensures result == ToLower(s)
  {
    hide SameLetter;
    result := s;
    for k := 0 to |s|
      invariant |result| == |s|
      invariant forall j :: 0 <= j < k ==> result[j] == LowerChar(s[j])
      invariant forall j :: k <= j < |s| ==> result[j] == s[j]
    {
      if 'A' <= result[k] <= 'Z' {
        result := result[k := (result[k] as int + 32) as char];
      }
    }
    ToLowerExactly(s, result);
  }
}
