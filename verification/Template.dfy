/**
 Template rendering (crates/admin/src/template.rs:117-149): placeholders are replaced
 one variable at a time, in whatever order the map of variables is iterated.
 */
module Template {
  import opened Prelude
  import opened MachineConfig

  /** `str::replace`: matches from the left, each after the end of the one before. */
  function Replace(s: string, token: string, value: string): string
    requires token != []
    decreases |s|
  {
    if |s| < |token| then s
    else if s[..|token|] == token then value + Replace(s[|token|..], token, value)
    else [s[0]] + Replace(s[1..], token, value)
  }

  predicate Contains(s: string, part: string) {
    |part| <= |s| && (s[..|part|] == part || (s != [] && Contains(s[1..], part)))
  }

  /** `part` occurs in `s` at position `i`. */
  predicate OccursAt(s: string, part: string, i: nat) { i + |part| <= |s| && s[i..i + |part|] == part }

  ghost predicate Holds(s: string, part: string) { exists i: nat :: OccursAt(s, part, i) }

  lemma {:induction false} OccursWhere(s: string, part: string) returns (i: nat)
    requires Contains(s, part)
    ensures OccursAt(s, part, i)
  {
    i := 0;
    if s[..|part|] != part {
      var j := OccursWhere(s[1..], part);
      assert s[1..][j..j + |part|] == s[j + 1..j + 1 + |part|];
      i := j + 1;
    }
  }

  lemma {:induction false} OccursThere(s: string, part: string, i: nat)
    requires OccursAt(s, part, i)
    ensures Contains(s, part)
    decreases i
  {
    if i > 0 {
      assert s[1..][i - 1..i - 1 + |part|] == s[i..i + |part|];
      OccursThere(s[1..], part, i - 1);
    }
  }

  lemma ContainsIff(s: string, part: string)
    ensures Contains(s, part) <==> Holds(s, part)
  {
    if Contains(s, part) { var i := OccursWhere(s, part); }
    forall i: nat | OccursAt(s, part, i) ensures Contains(s, part) { OccursThere(s, part, i); }
  }

  /** The parts with `between` between them. */
  function Join(parts: seq<string>, between: string): string
    requires parts != []
  {
    if |parts| == 1 then parts[0] else parts[0] + between + Join(parts[1..], between)
  }

  /** The token occurs after each part but the last at its first chance, and not in the last. */
  ghost predicate LeftMost(parts: seq<string>, token: string)
    requires parts != []
  {
    && !Contains(parts[|parts| - 1], token)
    && forall k, i: nat :: 0 <= k < |parts| - 1 && i < |parts[k]| ==> !OccursAt(parts[k] + token, token, i)
  }

  /**
   What `str::replace` promises: the text is cut at the occurrences of the token, taken
   from the left and not overlapping, and the value put there instead.
   */
  lemma {:induction false} ReplaceCuts(s: string, token: string, value: string) returns (parts: seq<string>)
    requires token != []
    ensures parts != [] && LeftMost(parts, token)
    ensures s == Join(parts, token) && Replace(s, token, value) == Join(parts, value)
    decreases |s|
  {
    if |s| < |token| {
      parts := [s];
    } else if s[..|token|] == token {
      var more := ReplaceCuts(s[|token|..], token, value);
      parts := [[]] + more;
      CutHere(more, token, value);
      SplitAt(s, |token|);
    } else {
      var more := ReplaceCuts(s[1..], token, value);
      parts := [[s[0]] + more[0]] + more[1..];
      PassOne(s[0], more, token, value);
      SplitFirst(s);
      NotHere(s, more, token);
    }
  }

  lemma CutHere(more: seq<string>, token: string, value: string)
    requires token != [] && more != [] && LeftMost(more, token)
    ensures LeftMost([[]] + more, token)
    ensures Join([[]] + more, token) == token + Join(more, token)
    ensures Join([[]] + more, value) == value + Join(more, value)
  {
    Prepended([], more);
    assert forall between: string :: [] + between == between;
  }

  lemma PassOne(c: char, more: seq<string>, token: string, value: string)
    requires more != []
    ensures var parts := [[c] + more[0]] + more[1..];
            Join(parts, token) == [c] + Join(more, token) && Join(parts, value) == [c] + Join(more, value)
  {
    var parts := [[c] + more[0]] + more[1..];
    Prepended([c] + more[0], more[1..]);
    if |more| > 1 {
      Associative([c], more[0] + token, Join(more[1..], token));
      Associative([c], more[0], token);
      Associative([c], more[0] + value, Join(more[1..], value));
      Associative([c], more[0], value);
    }
  }

  /** The first character starts no occurrence. */
  lemma NotHere(s: string, more: seq<string>, token: string)
    requires token != [] && |s| >= |token| && s[..|token|] != token && more != [] && LeftMost(more, token)
    requires s[1..] == Join(more, token)
    ensures LeftMost([[s[0]] + more[0]] + more[1..], token)
  {
    var first, parts := [s[0]] + more[0], [[s[0]] + more[0]] + more[1..];
    Prepended(first, more[1..]);
    SplitFirst(s);
    if |more| == 1 {
      assert first == s;
      assert parts == [s];
    } else {
      assert parts[|parts| - 1] == more[|more| - 1];
      NotWithin(s, more, token);
    }
  }

  lemma NotWithin(s: string, more: seq<string>, token: string)
    requires token != [] && |s| >= |token| && s[..|token|] != token && |more| > 1 && LeftMost(more, token)
    requires s == [s[0]] + Join(more, token)
    ensures forall i: nat :: i < 1 + |more[0]| ==> !OccursAt([s[0]] + more[0] + token, token, i)
  {
    var text, tail := [s[0]] + more[0] + token, more[0] + token;
    Associative([s[0]], more[0], token);
    Associative([s[0]], tail, Join(more[1..], token));
    forall i: nat | i < 1 + |more[0]| ensures !OccursAt(text, token, i) {
      if i == 0 {
        SameStart(text, Join(more[1..], token), |token|);
      } else {
        assert !OccursAt(tail, token, i - 1);
        OneLater(s[0], tail, token, i - 1);
      }
    }
  }

  lemma SameStart(a: string, b: string, n: nat)
    requires n <= |a|
    ensures (a + b)[..n] == a[..n]
  {
  }

  lemma OneLater(c: char, s: string, part: string, i: nat)
    ensures OccursAt([c] + s, part, i + 1) <==> OccursAt(s, part, i)
  {
    if i + |part| <= |s| { assert ([c] + s)[i + 1..i + 1 + |part|] == s[i..i + |part|]; }
  }

  function Token(key: string): string { "{{" + key + "}}" }

  /** Replacing every variable, in the given order. */
  function Replaced(s: string, order: seq<string>, vars: map<string, string>): string
    requires forall k :: k in order ==> k in vars
    decreases |order|
  {
    if order == [] then s
    else Replaced(Replace(s, Token(order[0]), vars[order[0]]), order[1..], vars)
  }

  /** The guard of `render_string`: the text looks as if it had a placeholder left. */
  predicate Unresolved(s: string) { Contains(s, "{{") && Contains(s, "}}") }

  /** `render_string` for one order of iteration; `None` is the error. */
  function Render(s: string, order: seq<string>, vars: map<string, string>): Option<string>
    requires forall k :: k in order ==> k in vars
  {
    var output := Replaced(s, order, vars);
    if Unresolved(output) then None else Some(output)
  }

  /** Rendering fails exactly if what is left after the replacements holds both brace pairs somewhere. */
  lemma RenderFailsIff(s: string, order: seq<string>, vars: map<string, string>)
    requires forall k :: k in order ==> k in vars
    ensures var output := Replaced(s, order, vars);
            && (Render(s, order, vars).None? <==> Holds(output, "{{") && Holds(output, "}}"))
            && (Render(s, order, vars).Some? ==> Render(s, order, vars) == Some(output))
  {
    var output := Replaced(s, order, vars);
    ContainsIff(output, "{{");
    ContainsIff(output, "}}");
    assert Unresolved(output) <==> Contains(output, "{{") && Contains(output, "}}");
  }

  /** Each variable once. */
  ghost predicate Iterates(order: seq<string>, vars: map<string, string>) {
    && (forall k :: k in order <==> k in vars)
    && (forall i, j :: 0 <= i < j < |order| ==> order[i] != order[j])
  }

  lemma {:induction false} ReplacedLast(s: string, order: seq<string>, key: string, vars: map<string, string>)
    requires (forall k :: k in order ==> k in vars) && key in vars
    ensures Replaced(s, order + [key], vars) == Replace(Replaced(s, order, vars), Token(key), vars[key])
    decreases |order|
  {
    if order == [] {
      NothingAppended([key]);
      Prepended(key, []);
    } else {
      var first, rest := order[0], order[1..];
      ReplacedLast(Replace(s, Token(first), vars[first]), rest, key, vars);
      SplitFirst(order);
      Associative([first], rest, [key]);
      Prepended(first, rest + [key]);
    }
  }

  method RenderString(input: string, vars: map<string, string>) returns (r: Option<string>)
    ensures exists order :: Iterates(order, vars) && r == Render(input, order, vars)
  {
    var output, left := input, vars.Keys;
    ghost var order: seq<string> := [];
    while left != {}
      invariant left <= vars.Keys && forall k :: k in order <==> k in vars && k !in left
      invariant forall i, j :: 0 <= i < j < |order| ==> order[i] != order[j]
      invariant output == Replaced(input, order, vars)
    {
      var key :| key in left;
      ReplacedLast(input, order, key, vars);
      output := Replace(output, Token(key), vars[key]);
      order := order + [key];
      left := left - {key};
    }
    r := if Unresolved(output) then None else Some(output);
    assert Iterates(order, vars) && r == Render(input, order, vars);
  }

  // ---------------------------------------------------------------------------
  // Templates made of literals and placeholders
  // ---------------------------------------------------------------------------

  datatype Segment = Lit(text: string) | Var(key: string)

  predicate BraceFree(s: string) { '{' !in s && '}' !in s }

  /** The keys of all placeholders are free of braces; literals may hold anything. */
  predicate PlainKeys(segments: seq<Segment>) {
    forall x :: x in segments && x.Var? ==> BraceFree(x.key)
  }

  function Piece(x: Segment): string { if x.Lit? then x.text else Token(x.key) }

  function Text(segments: seq<Segment>): string {
    if segments == [] then [] else Piece(segments[0]) + Text(segments[1..])
  }

  function Fill(x: Segment, keys: set<string>, vars: map<string, string>): Segment
    requires keys <= vars.Keys
  {
    if x.Var? && x.key in keys then Lit(vars[x.key]) else x
  }

  /** The placeholders of the given keys replaced by their values, all at once. */
  function Substitute(segments: seq<Segment>, keys: set<string>, vars: map<string, string>): (r: seq<Segment>)
    requires keys <= vars.Keys
    ensures |r| == |segments| && forall i :: 0 <= i < |r| ==> r[i] == Fill(segments[i], keys, vars)
  {
    if segments == [] then [] else [Fill(segments[0], keys, vars)] + Substitute(segments[1..], keys, vars)
  }

  lemma TextCons(x: Segment, segments: seq<Segment>)
    ensures Text([x] + segments) == Piece(x) + Text(segments)
  {
    Prepended(x, segments);
  }

  lemma SubstituteCons(x: Segment, segments: seq<Segment>, keys: set<string>, vars: map<string, string>)
    requires keys <= vars.Keys
    ensures Substitute([x] + segments, keys, vars) == [Fill(x, keys, vars)] + Substitute(segments, keys, vars)
  {
    Prepended(x, segments);
  }

  lemma SubstituteTwice(segments: seq<Segment>, a: set<string>, b: set<string>, vars: map<string, string>)
    requires a <= vars.Keys && b <= vars.Keys
    ensures Substitute(Substitute(segments, a, vars), b, vars) == Substitute(segments, a + b, vars)
  {
  }

  lemma SubstituteKeepsKeys(segments: seq<Segment>, keys: set<string>, vars: map<string, string>)
    requires keys <= vars.Keys && PlainKeys(segments)
    ensures PlainKeys(Substitute(segments, keys, vars))
  {
  }

  // ---------------------------------------------------------------------------
  // Where a token can match
  // ---------------------------------------------------------------------------

  /** No match at the start: the first character is passed over. */
  lemma SkipChar(s: string, token: string, value: string)
    requires s != [] && token != [] && (|s| < |token| || s[..|token|] != token)
    ensures Replace(s, token, value) == [s[0]] + Replace(s[1..], token, value)
  {
    if |s| < |token| { SplitFirst(s); }
  }

  lemma SkipFirst(c: char, rest: string, token: string, value: string)
    requires token != [] && (|rest| + 1 < |token| || ([c] + rest)[..|token|] != token)
    ensures Replace([c] + rest, token, value) == [c] + Replace(rest, token, value)
  {
    Prepended(c, rest);
    SkipChar([c] + rest, token, value);
  }

  /** Text without an opening brace is passed over. */
  lemma {:induction false} PassOver(a: string, b: string, token: string, value: string)
    requires |token| > 0 && token[0] == '{' && '{' !in a
    ensures Replace(a + b, token, value) == a + Replace(b, token, value)
  {
    if a == [] {
      NothingAppended(b);
      NothingAppended(Replace(b, token, value));
    } else {
      var c, rest := a[0], a[1..];
      SplitFirst(a);
      PassOver(rest, b, token, value);
      Associative([c], rest, b);
      DifferentStart(c, rest + b, token);
      SkipFirst(c, rest + b, token, value);
      Associative([c], rest, Replace(b, token, value));
    }
  }

  lemma DifferentStart(c: char, rest: string, token: string)
    requires token != [] && c != token[0]
    ensures |rest| + 1 < |token| || ([c] + rest)[..|token|] != token
  {
    if |rest| + 1 >= |token| { assert ([c] + rest)[..|token|][0] == c; }
  }

  /** Opening braces are the first two characters of a token and no others. */
  lemma TokenChar(key: string, j: nat)
    requires BraceFree(key) && j < |Token(key)|
    ensures Token(key)[j] == '{' <==> j < 2
  {
    if 2 <= j < 2 + |key| { assert Token(key)[j] == key[j - 2]; }
  }

  /** A placeholder of another key does not match where it stands. */
  lemma NoMatch(key: string, other: string, b: string)
    requires BraceFree(key) && BraceFree(other) && key != other
    ensures |Token(other) + b| >= |Token(key)| ==> (Token(other) + b)[..|Token(key)|] != Token(key)
  {
    var s, token := Token(other) + b, Token(key);
    if |s| >= |token| {
      var start := s[..|token|];
      if |key| < |other| {
        assert start[2 + |key|] == other[|key|] && token[2 + |key|] == '}';
      } else if |other| < |key| {
        assert start[2 + |other|] == '}' && token[2 + |other|] == key[|other|];
      } else {
        var i :| 0 <= i < |key| && key[i] != other[i];
        assert start[2 + i] == other[i] && token[2 + i] == key[i];
      }
    }
  }

  /** Nor does anything match from its second brace on. */
  lemma NoMatchInside(key: string, other: string, b: string)
    requires BraceFree(key) && BraceFree(other)
    ensures var s := "{" + (other + "}}" + b); |s| >= |Token(key)| ==> s[..|Token(key)|] != Token(key)
  {
    var rest := other + "}}" + b;
    var s := "{" + rest;
    if |s| >= |Token(key)| {
      assert s[..|Token(key)|][1] == rest[0] != '{';
      assert Token(key)[1] == '{';
    }
  }

  lemma TokenParts(other: string, b: string)
    ensures Token(other) + b == "{" + ("{" + (other + "}}" + b))
  {
  }

  /** A placeholder of another key is passed over. */
  lemma OtherKey(key: string, other: string, b: string, value: string)
    requires BraceFree(key) && BraceFree(other) && key != other
    ensures Replace(Token(other) + b, Token(key), value) == Token(other) + Replace(b, Token(key), value)
  {
    var token, rest := Token(key), other + "}}";
    var r := Replace(b, token, value);
    TokenParts(other, b);
    TokenParts(other, r);
    NoMatch(key, other, b);
    NoMatchInside(key, other, b);
    SkipFirst('{', "{" + (rest + b), token, value);
    SkipFirst('{', rest + b, token, value);
    PassOver(rest, b, token, value);
  }

  /** A match cannot run from plain text into a placeholder. */
  lemma NoStart(a: string, b: string, key: string)
    requires BraceFree(key) && a != [] && !Contains(a, Token(key))
    requires b == [] || (|b| >= 2 && b[0] == b[1] == '{')
    ensures |a + b| < |Token(key)| || (a + b)[..|Token(key)|] != Token(key)
  {
    var token := Token(key);
    if |a + b| >= |token| {
      var start := (a + b)[..|token|];
      if |token| <= |a| {
        assert start == a[..|token|];
      } else {
        assert start[|a|] == b[0];
        TokenChar(key, |a|);
        if |a| == 1 {
          assert start[2] == b[1];
          TokenChar(key, 2);
        }
      }
    }
  }

  /** Plain text that does not hold the token is passed over, up to the end or the next placeholder. */
  lemma {:induction false} PassRun(a: string, b: string, key: string, value: string)
    requires BraceFree(key) && !Contains(a, Token(key))
    requires b == [] || (|b| >= 2 && b[0] == b[1] == '{')
    ensures Replace(a + b, Token(key), value) == a + Replace(b, Token(key), value)
  {
    var token := Token(key);
    if a == [] {
      NothingAppended(b);
      NothingAppended(Replace(b, token, value));
    } else {
      var c, rest := a[0], a[1..];
      SplitFirst(a);
      NoStart(a, b, key);
      Associative([c], rest, b);
      SkipFirst(c, rest + b, token, value);
      PassRun(rest, b, key, value);
      Associative([c], rest, Replace(b, token, value));
    }
  }

  // ---------------------------------------------------------------------------
  // Runs of plain text
  // ---------------------------------------------------------------------------

  /**
   Every stretch of literals between placeholders, the first one continuing `run`, is
   free of one of the two brace pairs.
   */
  predicate Settled(run: string, segments: seq<Segment>)
    decreases |segments|
  {
    if segments == [] then !Unresolved(run)
    else if segments[0].Lit? then Settled(run + segments[0].text, segments[1..])
    else !Unresolved(run) && Settled([], segments[1..])
  }

  lemma SettledCons(run: string, x: Segment, segments: seq<Segment>)
    ensures Settled(run, [x] + segments) <==>
            if x.Lit? then Settled(run + x.text, segments) else !Unresolved(run) && Settled([], segments)
  {
    Prepended(x, segments);
  }

  lemma {:induction false} ContainsAfter(a: string, b: string, part: string)
    requires Contains(b, part)
    ensures Contains(a + b, part)
  {
    if a == [] {
      NothingAppended(b);
    } else {
      ContainsAfter(a[1..], b, part);
      SplitFirst(a);
      Associative([a[0]], a[1..], b);
      Prepended(a[0], a[1..] + b);
    }
  }

  lemma {:induction false} ContainsBefore(a: string, b: string, part: string)
    requires Contains(a, part)
    ensures Contains(a + b, part)
  {
    if a[..|part|] == part {
      assert (a + b)[..|part|] == part;
    } else {
      ContainsBefore(a[1..], b, part);
      SplitFirst(a);
      Associative([a[0]], a[1..], b);
      Prepended(a[0], a[1..] + b);
    }
  }

  /** What holds a token holds both brace pairs. */
  lemma TokenIsUnresolved(s: string, key: string)
    requires Contains(s, Token(key))
    ensures Unresolved(s)
    decreases |s|
  {
    var token := Token(key);
    if s[..|token|] == token {
      SplitAt(s, |token|);
      OwnBraces(key);
      ContainsBefore(token, s[|token|..], "{{");
      ContainsBefore(token, s[|token|..], "}}");
    } else {
      TokenIsUnresolved(s[1..], key);
    }
  }

  lemma OwnBraces(key: string)
    ensures Unresolved(Token(key))
  {
    ContainsBefore("{{", key + "}}", "{{");
    ContainsAfter("{{" + key, "}}", "}}");
    Associative("{{", key, "}}");
  }

  lemma UnresolvedWithin(a: string, b: string)
    requires Unresolved(b)
    ensures Unresolved(a + b) && Unresolved(b + a)
  {
    ContainsAfter(a, b, "{{");
    ContainsAfter(a, b, "}}");
    ContainsBefore(b, a, "{{");
    ContainsBefore(b, a, "}}");
  }

  lemma {:induction false} SettledRun(run: string, segments: seq<Segment>)
    requires Settled(run, segments)
    ensures !Unresolved(run)
    decreases |segments|
  {
    if segments != [] && segments[0].Lit? {
      SettledRun(run + segments[0].text, segments[1..]);
      if Unresolved(run) { UnresolvedWithin(segments[0].text, run); }
    }
  }

  /** Leaving placeholders in place only cuts the stretches shorter. */
  lemma {:induction false} SettledFewer(before: string, run: string, segments: seq<Segment>, keys: set<string>,
                                        all: set<string>, vars: map<string, string>)
    requires keys <= all <= vars.Keys && Settled(before + run, Substitute(segments, all, vars))
    ensures Settled(run, Substitute(segments, keys, vars))
    decreases |segments|
  {
    SettledRun(before + run, Substitute(segments, all, vars));
    if Unresolved(run) { UnresolvedWithin(before, run); }
    if segments != [] {
      var x, rest := segments[0], segments[1..];
      SplitFirst(segments);
      SubstituteCons(x, rest, all, vars);
      SubstituteCons(x, rest, keys, vars);
      SettledCons(before + run, Fill(x, all, vars), Substitute(rest, all, vars));
      SettledCons(run, Fill(x, keys, vars), Substitute(rest, keys, vars));
      if Fill(x, keys, vars).Lit? {
        Associative(before, run, Fill(x, keys, vars).text);
        SettledFewer(before, run + Fill(x, keys, vars).text, rest, keys, all, vars);
      } else if Fill(x, all, vars).Lit? {
        NothingAppended(before + run + Fill(x, all, vars).text);
        SettledFewer(before + run + Fill(x, all, vars).text, [], rest, keys, all, vars);
      } else {
        NothingAppended<char>([]);
        SettledFewer([], [], rest, keys, all, vars);
      }
    }
  }

  // ---------------------------------------------------------------------------
  // One variable, and all of them
  // ---------------------------------------------------------------------------

  /** The text of what follows a stretch of literals is empty or starts with a placeholder. */
  lemma TokenStart(key: string, b: string)
    ensures var s := Token(key) + b; |s| >= 2 && s[0] == s[1] == '{'
  {
  }

  lemma ReplaceToken(key: string, b: string, value: string)
    ensures Replace(Token(key) + b, Token(key), value) == value + Replace(b, Token(key), value)
  {
    var s, token := Token(key) + b, Token(key);
    assert s[..|token|] == token && s[|token|..] == b;
  }

  /** One placeholder and what follows it. */
  lemma ReplacePlaceholder(other: string, tail: string, key: string, value: string)
    requires BraceFree(key) && BraceFree(other)
    ensures Replace(Token(other) + tail, Token(key), value) ==
            (if other == key then value else Token(other)) + Replace(tail, Token(key), value)
  {
    if other == key { ReplaceToken(key, tail, value); } else { OtherKey(key, other, tail, value); }
  }

  /** Over a run of literals and the placeholder after it. */
  lemma ReplaceAcross(run: string, other: string, tail: string, key: string, value: string)
    requires BraceFree(key) && BraceFree(other) && !Contains(run, Token(key))
    ensures Replace(run + (Token(other) + tail), Token(key), value)
            == run + ((if other == key then value else Token(other)) + Replace(tail, Token(key), value))
  {
    TokenStart(other, tail);
    PassRun(run, Token(other) + tail, key, value);
    ReplacePlaceholder(other, tail, key, value);
  }

  /** Replacing one variable in the text is substituting it in the segments. */
  lemma {:induction false} ReplaceIsSubstitute(run: string, segments: seq<Segment>, key: string,
                                               vars: map<string, string>)
    requires PlainKeys(segments) && BraceFree(key) && key in vars && Settled(run, segments)
    ensures Replace(run + Text(segments), Token(key), vars[key]) == run + Text(Substitute(segments, {key}, vars))
    decreases |segments|
  {
    SettledRun(run, segments);
    if Contains(run, Token(key)) { TokenIsUnresolved(run, key); }
    if segments == [] {
      PassRun(run, [], key, vars[key]);
    } else {
      var x, rest := segments[0], segments[1..];
      SplitFirst(segments);
      TextCons(x, rest);
      SubstituteCons(x, rest, {key}, vars);
      TextCons(Fill(x, {key}, vars), Substitute(rest, {key}, vars));
      SettledCons(run, x, rest);
      if x.Lit? {
        ReplaceIsSubstitute(run + x.text, rest, key, vars);
        Associative(run, x.text, Text(rest));
        Associative(run, x.text, Text(Substitute(rest, {key}, vars)));
      } else {
        assert x in segments;
        ReplaceIsSubstitute([], rest, key, vars);
        NothingAppended(Text(rest));
        NothingAppended(Text(Substitute(rest, {key}, vars)));
        ReplaceAcross(run, x.key, Text(rest), key, vars[key]);
      }
    }
  }

  /** One variable at a time comes to the same as all at once, in every order. */
  lemma {:induction false} ReplacedIsSubstitute(segments: seq<Segment>, order: seq<string>, vars: map<string, string>)
    requires PlainKeys(segments) && (forall k :: k in vars ==> BraceFree(k)) && (forall k :: k in order ==> k in vars)
    requires Settled([], Substitute(segments, vars.Keys, vars))
    ensures Elements(order) <= vars.Keys
    ensures Replaced(Text(segments), order, vars) == Text(Substitute(segments, Elements(order), vars))
    decreases |order|
  {
    if order == [] {
      assert Elements(order) == {};
      SubstituteNothing(segments, vars);
    } else {
      var key, rest := order[0], order[1..];
      var segments' := Substitute(segments, {key}, vars);
      NothingAppended(Text(segments));
      NothingAppended(Text(segments'));
      SettledNow(segments, vars);
      ReplaceIsSubstitute([], segments, key, vars);
      SubstituteKeepsKeys(segments, {key}, vars);
      SubstituteTwice(segments, {key}, vars.Keys, vars);
      assert {key} + vars.Keys == vars.Keys;
      ReplacedIsSubstitute(segments', rest, vars);
      SubstituteTwice(segments, {key}, Elements(rest), vars);
      ElementsCons(order);
    }
  }

  lemma ElementsCons(order: seq<string>)
    requires order != []
    ensures Elements(order) == {order[0]} + Elements(order[1..])
  {
    SplitFirst(order);
  }

  lemma SubstituteNothing(segments: seq<Segment>, vars: map<string, string>)
    ensures Substitute(segments, {}, vars) == segments
  {
  }

  lemma SettledNow(segments: seq<Segment>, vars: map<string, string>)
    requires Settled([], Substitute(segments, vars.Keys, vars))
    ensures Settled([], segments)
  {
    NothingAppended<char>([]);
    SettledFewer([], [], segments, {}, vars.Keys, vars);
    SubstituteNothing(segments, vars);
  }

  predicate Bound(segments: seq<Segment>, vars: map<string, string>) {
    forall x :: x in segments && x.Var? ==> x.key in vars
  }

  /** The simultaneous substitution. */
  function Output(segments: seq<Segment>, vars: map<string, string>): string {
    Text(Substitute(segments, vars.Keys, vars))
  }

  /** A placeholder that is left makes the text unresolved. */
  lemma {:induction false} PlaceholderLeft(segments: seq<Segment>, i: nat)
    requires i < |segments| && segments[i].Var?
    ensures Unresolved(Text(segments))
  {
    var rest := Text(segments[1..]);
    if i == 0 {
      OwnBraces(segments[0].key);
      UnresolvedWithin(rest, Token(segments[0].key));
    } else {
      PlaceholderLeft(segments[1..], i - 1);
      UnresolvedWithin(Piece(segments[0]), rest);
    }
  }

  /** Without placeholders there is one stretch, the whole text. */
  lemma {:induction false} OneRun(run: string, segments: seq<Segment>)
    requires forall x :: x in segments ==> x.Lit?
    ensures Settled(run, segments) <==> !Unresolved(run + Text(segments))
    decreases |segments|
  {
    if segments == [] {
      NothingAppended(run);
    } else {
      assert segments[0] in segments;
      OneRun(run + segments[0].text, segments[1..]);
      Associative(run, segments[0].text, Text(segments[1..]));
    }
  }

  lemma BoundOutput(segments: seq<Segment>, vars: map<string, string>)
    ensures Bound(segments, vars) ==>
              (Settled([], Substitute(segments, vars.Keys, vars)) <==> !Unresolved(Output(segments, vars)))
    ensures !Bound(segments, vars) ==> Unresolved(Output(segments, vars))
  {
    var filled := Substitute(segments, vars.Keys, vars);
    if Bound(segments, vars) {
      OneRun([], filled);
      NothingAppended(Text(filled));
    } else {
      var i :| 0 <= i < |segments| && segments[i].Var? && segments[i].key !in vars;
      PlaceholderLeft(filled, i);
    }
  }

  /**
   If no stretch of literals and values between unbound placeholders holds both brace
   pairs, every order of iteration renders the simultaneous substitution, and rendering
   succeeds exactly if every placeholder is bound.
   */
  lemma RenderIsSubstitution(segments: seq<Segment>, order: seq<string>, vars: map<string, string>)
    requires PlainKeys(segments) && (forall k :: k in vars ==> BraceFree(k)) && Iterates(order, vars)
    requires Settled([], Substitute(segments, vars.Keys, vars))
    ensures Render(Text(segments), order, vars) == if Bound(segments, vars) then Some(Output(segments, vars)) else None
  {
    ReplacedIsSubstitute(segments, order, vars);
    assert Elements(order) == vars.Keys;
    BoundOutput(segments, vars);
  }

  /** Literals and values without opening braces meet the condition. */
  lemma {:induction false} NoBracesIsSettled(run: string, segments: seq<Segment>)
    requires '{' !in run && forall x :: x in segments && x.Lit? ==> '{' !in x.text
    ensures Settled(run, segments)
    decreases |segments|
  {
    if segments == [] || segments[0].Var? { NotContained(run, "{{"); }
    if segments != [] {
      assert segments[0] in segments;
      NoBracesIsSettled(if segments[0].Lit? then run + segments[0].text else [], segments[1..]);
    }
  }

  /** In particular templates and values without opening braces render in every order, if and only if all is bound. */
  lemma PlainTemplates(segments: seq<Segment>, order: seq<string>, vars: map<string, string>)
    requires PlainKeys(segments) && (forall k :: k in vars ==> BraceFree(k)) && Iterates(order, vars)
    requires (forall x :: x in segments && x.Lit? ==> '{' !in x.text) && (forall k :: k in vars ==> '{' !in vars[k])
    ensures Render(Text(segments), order, vars) == if Bound(segments, vars) then Some(Output(segments, vars)) else None
  {
    NoBracesIsSettled([], Substitute(segments, vars.Keys, vars));
    RenderIsSubstitution(segments, order, vars);
  }

  /**
   Exactly when rendering is the simultaneous substitution: for any literals and values,
   and every order of iteration, if and only if that substitution passes the guard.
   */
  lemma RenderIff(segments: seq<Segment>, order: seq<string>, vars: map<string, string>)
    requires PlainKeys(segments) && (forall k :: k in vars ==> BraceFree(k)) && Iterates(order, vars)
    ensures Render(Text(segments), order, vars) == Some(Output(segments, vars)) <==> !Unresolved(Output(segments, vars))
  {
    BoundOutput(segments, vars);
    if !Unresolved(Output(segments, vars)) {
      RenderIsSubstitution(segments, order, vars);
    }
  }

  lemma {:induction false} NotContained(s: string, part: string)
    requires part != [] && part[0] !in s
    ensures !Contains(s, part)
  {
    if |part| <= |s| {
      assert s[..|part|][0] == s[0];
      NotContained(s[1..], part);
    }
  }

  /** Where the guard fails the order shows: a value may bring a placeholder that is still to be replaced. */
  lemma OrderShowsWithBraces()
    ensures var vars := map["a" := "{{b}}", "b" := "x"];
            && Iterates(["a", "b"], vars) && Iterates(["b", "a"], vars)
            && Render("{{a}}", ["a", "b"], vars) == Some("x")
            && Render("{{a}}", ["b", "a"], vars) == None
  {
    var vars := map["a" := "{{b}}", "b" := "x"];
    ReplaceWhole("a", "{{b}}");
    ReplaceWhole("b", "x");
    OtherKey("b", "a", "", "x");
    assert "{{a}}" == Token("a") + "" && Token("b") == "{{b}}";
    assert ["a", "b"][1..] == ["b"] && ["b", "a"][1..] == ["a"] && ["a"][1..] == [] && ["b"][1..] == [];
    assert Replaced("{{a}}", ["a", "b"], vars) == "x";
    assert Replaced("{{a}}", ["b", "a"], vars) == "{{b}}";
    OwnBraces("b");
    NotContained("x", "{{");
  }

  lemma {:induction false} NothingToReplace(s: string, key: string, value: string)
    requires '{' !in s
    ensures Replace(s, Token(key), value) == s
  {
    if |s| >= |Token(key)| {
      assert s[..|Token(key)|][0] == s[0] != Token(key)[0];
      NothingToReplace(s[1..], key, value);
      SplitFirst(s);
    }
  }

  lemma ReplacedThree(s: string, a: string, b: string, c: string, vars: map<string, string>)
    requires a in vars && b in vars && c in vars
    ensures Replaced(s, [a, b, c], vars)
            == Replace(Replace(Replace(s, Token(a), vars[a]), Token(b), vars[b]), Token(c), vars[c])
  {
    assert [a, b, c][1..] == [b, c] && [b, c][1..] == [c] && [c][1..] == [];
    var s1 := Replace(s, Token(a), vars[a]);
    var s2 := Replace(s1, Token(b), vars[b]);
    var s3 := Replace(s2, Token(c), vars[c]);
    assert Replaced(s, [a, b, c], vars) == Replaced(s1, [b, c], vars);
    assert Replaced(s1, [b, c], vars) == Replaced(s2, [c], vars);
    assert Replaced(s2, [c], vars) == Replaced(s3, [], vars) == s3;
  }

  /** One placeholder after the other. */
  lemma ReplaceBoth(a: string, b: string, x: string, y: string)
    requires BraceFree(a) && BraceFree(b) && a != b && '{' !in x
    ensures Replace(Replace(Token(a) + Token(b), Token(a), x), Token(b), y) == x + y
  {
    ReplaceToken(a, Token(b), x);
    NothingAppended(Token(b));
    OtherKey(a, b, [], x);
    if Contains(x, Token(b)) {
      TokenIsUnresolved(x, b);
      NotContained(x, "{{");
    }
    PassRun(x, Token(b), b, y);
    ReplaceWhole(b, y);
  }

  /**
   With braces in names the order shows even where the guard passes, because one token
   may span two placeholders: for any names `a` and `b`, the name `a}}{{b`.
   */
  lemma OrderShowsWithBracesInNames(a: string, b: string, x: string, y: string, z: string)
    requires BraceFree(a) && BraceFree(b) && a != b && '{' !in x + y && '{' !in z
    ensures var both := a + "}}{{" + b;
            var vars := map[a := x, b := y, both := z];
            && Iterates([a, b, both], vars) && Iterates([both, a, b], vars)
            && Render(Token(a) + Token(b), [a, b, both], vars) == Some(x + y)
            && Render(Token(a) + Token(b), [both, a, b], vars) == Some(z)
  {
    var both := a + "}}{{" + b;
    var vars, s := map[a := x, b := y, both := z], Token(a) + Token(b);
    assert both[|a|] == '}' && '}' in both;
    assert s == Token(both);
    ReplacedThree(s, a, b, both, vars);
    ReplaceBoth(a, b, x, y);
    NothingToReplace(x + y, both, z);
    NotContained(x + y, "{{");
    ReplacedThree(s, both, a, b, vars);
    ReplaceWhole(both, z);
    NothingToReplace(z, a, x);
    NothingToReplace(z, b, y);
    NotContained(z, "{{");
  }

  lemma ReplaceWhole(key: string, value: string)
    ensures Replace(Token(key), Token(key), value) == value
  {
    NothingAppended(Token(key));
    ReplaceToken(key, [], value);
    NothingAppended(value);
  }

  // ---------------------------------------------------------------------------
  // Values
  // ---------------------------------------------------------------------------

  /** `render_value`: every string of the tree, where the map of variables is iterated in `order`. */
  function RenderValue(v: Json, order: seq<string>, vars: map<string, string>): Option<Json>
    requires forall k :: k in order ==> k in vars
  {
    match v
    case Str(s) =>
      var r := Render(s, order, vars);
      if r.Some? then Some(Str(r.value)) else None
    case Arr(items) =>
      if forall i :: 0 <= i < |items| ==> RenderValue(items[i], order, vars).Some? then
        Some(Arr(seq(|items|, i requires 0 <= i < |items| => RenderValue(items[i], order, vars).value)))
      else None
    case Obj(fields) =>
      if forall k :: k in fields ==> RenderValue(fields[k], order, vars).Some? then
        Some(Obj(map k | k in fields :: RenderValue(fields[k], order, vars).value))
      else None
    case _ => Some(v)
  }

  /** A step into a tree: a field of a table or an item of an array. */
  datatype Step = Field(key: string) | Item(index: nat)

  function Inside(v: Json, path: seq<Step>): Option<Json>
    decreases |path|
  {
    if path == [] then Some(v)
    else match path[0]
      case Field(key) => if v.Obj? && key in v.fields then Inside(v.fields[key], path[1..]) else None
      case Item(index) => if v.Arr? && index < |v.items| then Inside(v.items[index], path[1..]) else None
  }

  /** Rendered or not, a value has the same shape: the same fields, as many items, the same scalars. */
  predicate SameShape(v: Json, v': Json, order: seq<string>, vars: map<string, string>)
    requires forall k :: k in order ==> k in vars
  {
    match v
    case Str(s) => Render(s, order, vars).Some? && v' == Str(Render(s, order, vars).value)
    case Arr(items) => v'.Arr? && |v'.items| == |items|
    case Obj(fields) => v'.Obj? && v'.fields.Keys == fields.Keys
    case _ => v' == v
  }

  /** Every string anywhere in the tree is rendered, and nothing else changes. */
  lemma {:induction false} EveryStringIsRendered(v: Json, order: seq<string>, vars: map<string, string>,
                                                 path: seq<Step>)
    requires (forall k :: k in order ==> k in vars) && RenderValue(v, order, vars).Some?
    ensures var v' := RenderValue(v, order, vars).value;
            && (Inside(v, path).Some? <==> Inside(v', path).Some?)
            && (Inside(v, path).Some? ==> SameShape(Inside(v, path).value, Inside(v', path).value, order, vars))
    decreases |path|
  {
    var v' := RenderValue(v, order, vars).value;
    if path == [] {
      if v.Obj? { assert v'.fields.Keys == v.fields.Keys; }
    } else if path[0].Field? {
      if v.Obj? && path[0].key in v.fields {
        EveryStringIsRendered(v.fields[path[0].key], order, vars, path[1..]);
      }
    } else if v.Arr? && path[0].index < |v.items| {
      EveryStringIsRendered(v.items[path[0].index], order, vars, path[1..]);
    }
  }

  /** A tree fails to render only because a string in it does. */
  lemma {:induction false} FailingString(v: Json, order: seq<string>, vars: map<string, string>)
    returns (path: seq<Step>)
    requires (forall k :: k in order ==> k in vars) && RenderValue(v, order, vars).None?
    ensures Inside(v, path).Some? && Inside(v, path).value.Str?
    ensures Render(Inside(v, path).value.s, order, vars).None?
    decreases v
  {
    path := [];
    if v.Arr? {
      var i :| 0 <= i < |v.items| && RenderValue(v.items[i], order, vars).None?;
      var rest := FailingString(v.items[i], order, vars);
      path := [Item(i)] + rest;
      Prepended(Item(i), rest);
    } else if v.Obj? {
      var k :| k in v.fields && RenderValue(v.fields[k], order, vars).None?;
      var rest := FailingString(v.fields[k], order, vars);
      path := [Field(k)] + rest;
      Prepended(Field(k), rest);
    }
  }

  /** How the strings of a tree are made of literals and placeholders. */
  type Parse = string -> seq<Segment>

  ghost predicate Parses(v: Json, parse: Parse) {
    match v
    case Str(s) => Text(parse(s)) == s && PlainKeys(parse(s))
    case Arr(items) => forall i :: 0 <= i < |items| ==> Parses(items[i], parse)
    case Obj(fields) => forall k :: k in fields ==> Parses(fields[k], parse)
    case _ => true
  }

  /** The tree with every string substituted. */
  function OutputValue(v: Json, parse: Parse, vars: map<string, string>): Json {
    match v
    case Str(s) => Str(Output(parse(s), vars))
    case Arr(items) => Arr(seq(|items|, i requires 0 <= i < |items| => OutputValue(items[i], parse, vars)))
    case Obj(fields) => Obj(map k | k in fields :: OutputValue(fields[k], parse, vars))
    case _ => v
  }

  /** The substitution of every string passes the guard. */
  ghost predicate Resolved(v: Json, parse: Parse, vars: map<string, string>) {
    match v
    case Str(s) => !Unresolved(Output(parse(s), vars))
    case Arr(items) => forall i :: 0 <= i < |items| ==> Resolved(items[i], parse, vars)
    case Obj(fields) => forall k :: k in fields ==> Resolved(fields[k], parse, vars)
    case _ => true
  }

  lemma ArrayIff(items: seq<Json>, order: seq<string>, parse: Parse, vars: map<string, string>)
    requires Iterates(order, vars)
    requires forall i :: 0 <= i < |items| ==>
               (RenderValue(items[i], order, vars) == Some(OutputValue(items[i], parse, vars)) <==>
                   Resolved(items[i], parse, vars))
    ensures RenderValue(Arr(items), order, vars) == Some(OutputValue(Arr(items), parse, vars)) <==>
            Resolved(Arr(items), parse, vars)
  {
    var r, out := RenderValue(Arr(items), order, vars), OutputValue(Arr(items), parse, vars);
    if Resolved(Arr(items), parse, vars) {
      assert r.value.items == out.items;
    } else if r.Some? {
      var i :| 0 <= i < |items| && !Resolved(items[i], parse, vars);
      assert RenderValue(items[i], order, vars) == Some(r.value.items[i]);
      assert out.items[i] == OutputValue(items[i], parse, vars);
    }
  }

  lemma TableIff(fields: map<string, Json>, order: seq<string>, parse: Parse, vars: map<string, string>)
    requires Iterates(order, vars)
    requires forall k :: k in fields ==>
               (RenderValue(fields[k], order, vars) == Some(OutputValue(fields[k], parse, vars)) <==>
                   Resolved(fields[k], parse, vars))
    ensures RenderValue(Obj(fields), order, vars) == Some(OutputValue(Obj(fields), parse, vars)) <==>
            Resolved(Obj(fields), parse, vars)
  {
    var r, out := RenderValue(Obj(fields), order, vars), OutputValue(Obj(fields), parse, vars);
    if Resolved(Obj(fields), parse, vars) {
      assert r.value.fields.Keys == out.fields.Keys && r.value.fields == out.fields;
    } else if r.Some? {
      var k :| k in fields && !Resolved(fields[k], parse, vars);
      assert RenderValue(fields[k], order, vars) == Some(r.value.fields[k]);
      assert out.fields[k] == OutputValue(fields[k], parse, vars);
    }
  }

  /**
   A tree renders to its substitution, in every order of iteration, if and only if every
   string of the substitution passes the guard.
   */
  lemma {:induction false} RenderValueIff(v: Json, order: seq<string>, parse: Parse, vars: map<string, string>)
    requires Parses(v, parse) && (forall k :: k in vars ==> BraceFree(k)) && Iterates(order, vars)
    ensures RenderValue(v, order, vars) == Some(OutputValue(v, parse, vars)) <==> Resolved(v, parse, vars)
    decreases v
  {
    match v {
      case Str(s) => RenderIff(parse(s), order, vars);
      case Arr(items) =>
        forall i | 0 <= i < |items|
          ensures RenderValue(items[i], order, vars) == Some(OutputValue(items[i], parse, vars)) <==>
                  Resolved(items[i], parse, vars)
        {
          RenderValueIff(items[i], order, parse, vars);
        }
        ArrayIff(items, order, parse, vars);
      case Obj(fields) =>
        forall k | k in fields
          ensures RenderValue(fields[k], order, vars) == Some(OutputValue(fields[k], parse, vars)) <==>
                  Resolved(fields[k], parse, vars)
        {
          RenderValueIff(fields[k], order, parse, vars);
        }
        TableIff(fields, order, parse, vars);
      case _ =>
    }
  }

  /** So where every string passes, the iteration order of the variables does not show in a rendered tree either. */
  lemma RenderValueIgnoresOrder(v: Json, order: seq<string>, order': seq<string>, parse: Parse,
                                vars: map<string, string>)
    requires Parses(v, parse) && (forall k :: k in vars ==> BraceFree(k)) && Resolved(v, parse, vars)
    requires Iterates(order, vars) && Iterates(order', vars)
    ensures RenderValue(v, order, vars) == RenderValue(v, order', vars) == Some(OutputValue(v, parse, vars))
  {
    RenderValueIff(v, order, parse, vars);
    RenderValueIff(v, order', parse, vars);
  }

  /** A rendered table is a table with the same keys: what the template's configuration is, the machine's is. */
  lemma RenderedTable(v: Json, order: seq<string>, vars: map<string, string>)
    requires (forall k :: k in order ==> k in vars) && RenderValue(v, order, vars).Some?
    ensures v.Obj? <==> RenderValue(v, order, vars).value.Obj?
    ensures v.Obj? ==> RenderValue(v, order, vars).value.fields.Keys == v.fields.Keys
  {
  }
}
