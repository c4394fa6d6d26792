/** The dashboard's notification templates: finding the variables of a text,
    replacing them one key at a time, and checking that all have values. */
module TemplateRendering {
  import opened Sequences
  import opened JsText

  // ----- the renderer

  function Pattern(key: string): string {
    "{{" + key + "}}"
  }

  /** A replacement value as `replace` reads it: $$, $&, $` and $' stand for a dollar, the
      match, and the text before and after it. */
  function Expand(value: string, matched: string, before: string, after: string): string {
    if |value| < 2 || value[0] != '$' then
      if value == "" then "" else [value[0]] + Expand(value[1..], matched, before, after)
    else if value[1] == '$' then "$" + Expand(value[2..], matched, before, after)
    else if value[1] == '&' then matched + Expand(value[2..], matched, before, after)
    else if value[1] == '`' then before + Expand(value[2..], matched, before, after)
    else if value[1] == '\'' then after + Expand(value[2..], matched, before, after)
    else "$" + Expand(value[1..], matched, before, after)
  }

  /** Every match of the pattern, leftmost first, replaced by the value. */
  function ReplaceAll(text: string, pattern: string, value: string, before: string): string
    requires pattern != ""
  {
    if text == "" then ""
    else if pattern <= text then
      Expand(value, pattern, before, text[|pattern|..])
      + ReplaceAll(text[|pattern|..], pattern, value, before + pattern)
    else [text[0]] + ReplaceAll(text[1..], pattern, value, before + [text[0]])
  }

  type Entries = seq<(string, string)>

  /** The text after the given entries have been applied, first to last. */
  function Rendered(text: string, entries: Entries): string {
    if entries == [] then text
    else
      var (key, value) := entries[|entries| - 1];
      ReplaceAll(Rendered(text, entries[..|entries| - 1]), Pattern(key), value, "")
  }

  method ReplaceVariables(text: string, entries: Entries) returns (result: string)
    ensures result == Rendered(text, entries)
  {
    result := text;
    for i := 0 to |entries|
      invariant result == Rendered(text, entries[..i])
    {
      var (key, value) := entries[i];
      result := ReplaceAll(result, Pattern(key), value, "");
      assert entries[..i + 1][..i] == entries[..i];
    }
    assert entries[..|entries|] == entries;
  }

  function WordLength(s: string): (n: nat)
    ensures n <= |s|
  {
    if s != "" && IsWordChar(s[0]) then 1 + WordLength(s[1..]) else 0
  }

  /** The names a text's {{name}} matches capture, left to right. */
  function Matches(text: string): seq<string> {
    if text == "" then []
    else if "{{" <= text then
      var n := WordLength(text[2..]);
      if n > 0 && "}}" <= text[2 + n..] then [text[2..2 + n]] + Matches(text[4 + n..])
      else Matches(text[1..])
    else Matches(text[1..])
  }

  method ExtractVariables(text: string) returns (variables: seq<string>)
    ensures variables == Distinct(Matches(text))
  {
    var matches := Matches(text);
    variables := [];
    for i := 0 to |matches|
      invariant variables == Distinct(matches[..i])
    {
      if matches[i] !in variables {
        variables := variables + [matches[i]];
      }
      assert matches[..i + 1][..i] == matches[..i];
    }
    assert matches[..|matches|] == matches;
  }

  datatype Template = Template(body: string, variables: Option<seq<string>>)

  predicate Lacks(values: map<string, string>, name: string) {
    name !in values || Trim(values[name]) == ""
  }

  /** The template's variables, or else those its body shows. */
  function Asked(template: Template): seq<string> {
    if template.variables.Some? then template.variables.value else Distinct(Matches(template.body))
  }

  /** A name whose look-up finds something that cannot be trimmed. */
  predicate Trips(values: map<string, string>, name: string) {
    name !in values && name in INHERITED
  }

  /** The names asked for that have no value to speak of; nothing when the check throws. */
  function MissingVariables(template: Template, values: map<string, string>): Option<seq<string>> {
    if exists name :: name in Asked(template) && Trips(values, name) then None
    else Some(Filter(name => Lacks(values, name), Asked(template)))
  }

  // ----- texts made of literals and placeholders

  datatype Piece = Literal(text: string) | Placeholder(name: string)

  /** A match begins where the string does, in some text the string begins: the string holds
      all of a placeholder, or as much of one as there is room for. */
  predicate Opens(s: string) {
    || s == "{"
    || ("{{" <= s
        && var n := WordLength(s[2..]); var tail := s[2 + n..];
           tail == "" || (n > 0 && (tail == "}" || "}}" <= tail)))
  }

  /** No match begins in the string, whatever text it stands in. */
  predicate Closed(s: string) {
    s == "" || (!Opens(s) && Closed(s[1..]))
  }

  predicate WellFormed(pieces: seq<Piece>) {
    forall i :: 0 <= i < |pieces| ==>
      if pieces[i].Literal? then Closed(pieces[i].text) else IsWord(pieces[i].name)
  }

  function PieceText(piece: Piece): string {
    if piece.Literal? then piece.text else Pattern(piece.name)
  }

  function TextOf(pieces: seq<Piece>): string {
    if pieces == [] then "" else PieceText(pieces[0]) + TextOf(pieces[1..])
  }

  function NamesOf(pieces: seq<Piece>): seq<string> {
    if pieces == [] then []
    else (if pieces[0].Placeholder? then [pieces[0].name] else []) + NamesOf(pieces[1..])
  }

  /** Simultaneous substitution: each placeholder with a value becomes that value. */
  function Filled(piece: Piece, values: map<string, string>): Piece {
    if piece.Placeholder? && piece.name in values then Literal(values[piece.name]) else piece
  }

  function Substituted(pieces: seq<Piece>, values: map<string, string>): (r: seq<Piece>)
    ensures |r| == |pieces|
    ensures forall i :: 0 <= i < |pieces| ==> r[i] == Filled(pieces[i], values)
  {
    seq(|pieces|, i requires 0 <= i < |pieces| => Filled(pieces[i], values))
  }

  predicate IsPattern(s: string) {
    |s| >= 2 && s[0] == '$' && s[1] in "$&`'"
  }

  /** No dollar is followed by a character that makes it a pattern. */
  predicate PatternFree(value: string) {
    value == "" || (!IsPattern(value) && PatternFree(value[1..]))
  }

  predicate Inert(value: string) {
    Closed(value) && PatternFree(value)
  }

  /** The keys are words, and an object's: each there once. */
  predicate Keyed(entries: Entries) {
    && (forall i :: 0 <= i < |entries| ==> IsWord(entries[i].0))
    && (forall i, j :: 0 <= i < j < |entries| ==> entries[i].0 != entries[j].0)
  }

  predicate Usable(entries: Entries) {
    Keyed(entries) && forall i :: 0 <= i < |entries| ==> Inert(entries[i].1)
  }

  function ValuesOf(entries: Entries): map<string, string> {
    if entries == [] then map[]
    else ValuesOf(entries[..|entries| - 1])[entries[|entries| - 1].0 := entries[|entries| - 1].1]
  }

  // ----- one key

  /** A value without dollar patterns is inserted as it is. */
  lemma {:induction false} PatternFreeInserts(value: string, matched: string, before: string, after: string)
    requires PatternFree(value)
    ensures Expand(value, matched, before, after) == value
  {
    if value != "" {
      PatternFreeInserts(value[1..], matched, before, after);
      assert [value[0]] + value[1..] == value;
    }
  }

  lemma {:induction false} WordLengthOf(name: string, rest: string)
    requires (forall i :: 0 <= i < |name| ==> IsWordChar(name[i])) && (rest != "" ==> !IsWordChar(rest[0]))
    ensures WordLength(name + rest) == |name|
  {
    if name == "" {
      assert name + rest == rest;
    } else {
      assert (name + rest)[1..] == name[1..] + rest;
      WordLengthOf(name[1..], rest);
    }
  }

  lemma {:induction false} MatchOpens(s: string, rest: string, name: string)
    requires s != "" && IsWord(name) && Pattern(name) <= s + rest
    ensures Opens(s)
  {
    var p, t := Pattern(name), s + rest;
    assert forall i :: 0 <= i < |p| ==> p[i] == t[i];
    assert forall i :: 0 <= i < |name| ==> p[2 + i] == name[i];
    assert p[2 + |name|] == '}' && p[3 + |name|] == '}';
    assert p[0] == '{' && p[1] == '{' && t[0] == s[0] && (|s| > 1 ==> t[1] == s[1]);
    assert s[0] == '{' && (|s| == 1 ==> s == "{");
    if |s| >= 2 {
      assert s[1] == '{' && "{{" <= s;
      var word := if |s| - 2 <= |name| then s[2..] else s[2..2 + |name|];
      var tail := if |s| - 2 <= |name| then "" else s[2 + |name|..];
      assert forall i :: 0 <= i < |word| ==> word[i] == t[2 + i];
      assert s[2..] == word + tail;
      WordLengthOf(word, tail);
      assert s[2 + |word|..] == tail;
      assert |tail| > 0 ==> word == name && tail[0] == '}' && (|tail| > 1 ==> tail[1] == '}');
    }
  }

  lemma {:induction false} BraceFreeIsClosed(s: string)
    requires '{' !in s
    ensures Closed(s)
  {
    if s != "" {
      assert s[0] in s;
      BraceFreeIsClosed(s[1..]);
    }
  }

  lemma {:induction false} DollarFreeIsPatternFree(value: string)
    requires '$' !in value
    ensures PatternFree(value)
  {
    if value != "" {
      assert value[0] in value;
      DollarFreeIsPatternFree(value[1..]);
    }
  }

  lemma {:induction false} ReplaceHere(text: string, pattern: string, value: string, before: string)
    requires pattern != "" && pattern <= text
    ensures ReplaceAll(text, pattern, value, before)
            == Expand(value, pattern, before, text[|pattern|..])
               + ReplaceAll(text[|pattern|..], pattern, value, before + pattern)
  {
  }

  lemma {:induction false} ReplaceStep(text: string, pattern: string, value: string, before: string)
    requires pattern != "" && text != "" && !(pattern <= text)
    ensures ReplaceAll(text, pattern, value, before)
            == [text[0]] + ReplaceAll(text[1..], pattern, value, before + [text[0]])
  {
  }

  /** Closed text passes through. */
  lemma {:induction false} ReplaceSkips(text: string, rest: string, key: string, value: string, before: string)
    requires IsWord(key) && Closed(text)
    ensures ReplaceAll(text + rest, Pattern(key), value, before)
            == text + ReplaceAll(rest, Pattern(key), value, before + text)
    decreases |text|
  {
    hide ReplaceAll, Opens, IsWord;
    if text == "" {
      assert text + rest == rest && before + text == before;
    } else {
      if Pattern(key) <= text + rest { MatchOpens(text, rest, key); }
      ReplaceStep(text + rest, Pattern(key), value, before);
      hide Pattern;
      assert (text + rest)[0] == text[0] && (text + rest)[1..] == text[1..] + rest;
      ReplaceSkips(text[1..], rest, key, value, before + [text[0]]);
      assert before + [text[0]] + text[1..] == before + text;
    }
  }

  lemma {:induction false} PatternsDiffer(key: string, name: string, rest: string)
    requires IsWord(key) && IsWord(name) && Pattern(key) <= Pattern(name) + rest
    ensures key == name
  {
    var p, t := Pattern(key), Pattern(name) + rest;
    assert forall i :: 0 <= i < |p| ==> p[i] == t[i];
    assert forall i :: 0 <= i < |key| ==> p[2 + i] == key[i];
    assert forall i :: 0 <= i < |name| ==> t[2 + i] == name[i];
    assert p[2 + |key|] == '}' && t[2 + |name|] == '}';
  }

  lemma {:induction false} BracePassed(key: string, tail: string)
    requires IsWord(key) && tail != "" && tail[0] != '{'
    ensures !(Pattern(key) <= "{" + tail)
  {
    assert Pattern(key)[1] == '{' && ("{" + tail)[1] == tail[0];
  }

  lemma {:induction false} ReplaceSkipsPlaceholder(name: string, rest: string, key: string, value: string,
        before: string)
    requires IsWord(key) && IsWord(name) && key != name
    ensures ReplaceAll(Pattern(name) + rest, Pattern(key), value, before)
            == Pattern(name) + ReplaceAll(rest, Pattern(key), value, before + Pattern(name))
  {
    hide Expand, Closed, ReplaceAll;
    var tail := name + "}}";
    var text, p := Pattern(name) + rest, Pattern(key);
    assert text == "{" + ("{" + (tail + rest)) && Pattern(name) == "{" + ("{" + tail);
    if p <= text { PatternsDiffer(key, name, rest); }
    assert IsWordChar(name[0]) && (tail + rest)[0] == name[0];
    BracePassed(key, tail + rest);
    BraceFreeIsClosed(tail);
    hide IsWord;
    ReplaceStep(text, p, value, before);
    ReplaceStep(text[1..], p, value, before + "{");
    ReplaceSkips(tail, rest, key, value, before + "{" + "{");
    assert text[1..] == "{" + (tail + rest) && text[1..][1..] == tail + rest;
    assert before + "{" + "{" + tail == before + Pattern(name);
    var after := ReplaceAll(rest, p, value, before + Pattern(name));
    assert "{" + ("{" + (tail + after)) == Pattern(name) + after;
  }

  lemma {:induction false} ReplaceAtPlaceholder(name: string, rest: string, value: string, before: string)
    requires IsWord(name)
    ensures ReplaceAll(Pattern(name) + rest, Pattern(name), value, before)
            == Expand(value, Pattern(name), before, rest)
              + ReplaceAll(rest, Pattern(name), value, before + Pattern(name))
  {
    assert (Pattern(name) + rest)[|Pattern(name)|..] == rest;
  }

  lemma {:induction false} ReplaceOneKey(pieces: seq<Piece>, key: string, value: string, before: string)
    requires WellFormed(pieces) && IsWord(key) && PatternFree(value)
    ensures ReplaceAll(TextOf(pieces), Pattern(key), value, before) == TextOf(Substituted(pieces, map[key := value]))
    decreases |pieces|
  {
    if pieces != [] {
      var rest := TextOf(pieces[1..]);
      assert Substituted(pieces, map[key := value])[1..] == Substituted(pieces[1..], map[key := value]);
      ReplaceOneKey(pieces[1..], key, value, before + PieceText(pieces[0]));
      match pieces[0]
      case Literal(text) => ReplaceSkips(text, rest, key, value, before);
      case Placeholder(name) =>
        if name == key {
          PatternFreeInserts(value, Pattern(name), before, rest);
          ReplaceAtPlaceholder(name, rest, value, before);
        } else {
          ReplaceSkipsPlaceholder(name, rest, key, value, before);
        }
    }
  }

  // ----- the loop is simultaneous substitution

  lemma {:induction false} SubstitutedWellFormed(pieces: seq<Piece>, values: map<string, string>)
    requires WellFormed(pieces) && forall k :: k in values ==> Closed(values[k])
    ensures WellFormed(Substituted(pieces, values))
  {
  }

  lemma {:induction false} EntriesAreValues(entries: Entries)
    requires Keyed(entries)
    ensures forall k :: k in ValuesOf(entries) <==> exists i :: 0 <= i < |entries| && entries[i].0 == k
    ensures forall i :: 0 <= i < |entries| ==>
      entries[i].0 in ValuesOf(entries) && ValuesOf(entries)[entries[i].0] == entries[i].1
  {
    hide IsWord;
    if entries != [] {
      var init, last := entries[..|entries| - 1], entries[|entries| - 1];
      EntriesAreValues(init);
      assert forall i :: 0 <= i < |init| ==> entries[i] == init[i];
      assert ValuesOf(entries) == ValuesOf(init)[last.0 := last.1];
    }
  }

  lemma {:induction false} SubstitutedTwice(pieces: seq<Piece>, values: map<string, string>, key: string, value: string)
    requires key !in values
    ensures Substituted(Substituted(pieces, values), map[key := value]) == Substituted(pieces, values[key := value])
  {
  }

  /** Replacing one key after the other gives the simultaneous substitution. */
  lemma {:induction false} LoopIsSimultaneous(pieces: seq<Piece>, entries: Entries)
    requires WellFormed(pieces) && Usable(entries)
    ensures Rendered(TextOf(pieces), entries) == TextOf(Substituted(pieces, ValuesOf(entries)))
    ensures WellFormed(Substituted(pieces, ValuesOf(entries)))
    decreases |entries|
  {
    EntriesAreValues(entries);
    SubstitutedWellFormed(pieces, ValuesOf(entries));
    hide WellFormed, TextOf, ReplaceAll, Substituted, IsWord;
    if entries == [] {
      NothingSubstituted(pieces);
    } else {
      var init := entries[..|entries| - 1];
      var (key, value) := entries[|entries| - 1];
      LoopIsSimultaneous(pieces, init);
      EntriesAreValues(init);
      ReplaceOneKey(Substituted(pieces, ValuesOf(init)), key, value, "");
      SubstitutedTwice(pieces, ValuesOf(init), key, value);
    }
  }

  lemma {:induction false} NothingSubstituted(pieces: seq<Piece>)
    ensures Substituted(pieces, map[]) == pieces
  {
  }

  lemma {:induction false} ValuesWithin(entries: Entries, others: Entries)
    requires Keyed(entries) && Keyed(others) && forall e :: e in entries ==> e in others
    ensures forall k :: k in ValuesOf(entries) ==> k in ValuesOf(others) && ValuesOf(others)[k] == ValuesOf(entries)[k]
  {
    EntriesAreValues(entries);
    EntriesAreValues(others);
    hide Keyed, ValuesOf;
    forall k | k in ValuesOf(entries)
      ensures k in ValuesOf(others) && ValuesOf(others)[k] == ValuesOf(entries)[k]
    {
      var i :| 0 <= i < |entries| && entries[i].0 == k;
      assert entries[i] in entries;
      var j :| 0 <= j < |others| && others[j] == entries[i];
    }
  }

  lemma {:induction false} SameElements(entries: Entries, others: Entries)
    requires multiset(entries) == multiset(others)
    ensures forall e :: e in entries ==> e in others
  {
    assert forall e :: e in entries <==> e in multiset(entries);
    assert forall e :: e in others <==> e in multiset(others);
  }

  /** Entries that say the same of every key, in whatever order, render the same text. */
  lemma {:induction false} OrderIrrelevant(pieces: seq<Piece>, entries: Entries, reordered: Entries)
    requires WellFormed(pieces) && Usable(entries) && Usable(reordered)
    requires multiset(entries) == multiset(reordered)
    ensures Rendered(TextOf(pieces), entries) == Rendered(TextOf(pieces), reordered)
  {
    hide Rendered, TextOf, Substituted, WellFormed, Keyed, Inert, ValuesOf;
    LoopIsSimultaneous(pieces, entries);
    LoopIsSimultaneous(pieces, reordered);
    SameElements(entries, reordered);
    SameElements(reordered, entries);
    ValuesWithin(entries, reordered);
    ValuesWithin(reordered, entries);
    assert ValuesOf(entries) == ValuesOf(reordered);
  }

  lemma {:induction false} RenderedOnce(text: string, entry: (string, string))
    ensures Rendered(text, [entry]) == ReplaceAll(text, Pattern(entry.0), entry.1, "")
  {
    assert [entry][..0] == [] && Rendered(text, []) == text;
  }

  lemma {:induction false} RenderedTwice(text: string, first: (string, string), second: (string, string))
    ensures Rendered(text, [first, second])
            == ReplaceAll(ReplaceAll(text, Pattern(first.0), first.1, ""), Pattern(second.0), second.1, "")
  {
    assert [first, second][..1] == [first];
    RenderedOnce(text, first);
  }

  lemma {:induction false} LonePlaceholder(name: string, key: string, value: string)
    requires IsWord(name) && IsWord(key) && '$' !in value
    ensures ReplaceAll(Pattern(name), Pattern(key), value, "") == if name == key then value else Pattern(name)
  {
    assert Pattern(name) + "" == Pattern(name) && value + "" == value;
    DollarFreeIsPatternFree(value);
    PatternFreeInserts(value, Pattern(name), "", "");
    if name == key {
      ReplaceAtPlaceholder(name, "", value, "");
    } else {
      ReplaceSkipsPlaceholder(name, "", key, value, "");
    }
  }

  /** A value that itself holds a placeholder makes the order matter. */
  lemma {:induction false} OrderMattersForBracedValues()
    ensures Rendered("{{a}}", [("a", "{{b}}"), ("b", "x")]) != Rendered("{{a}}", [("b", "x"), ("a", "{{b}}")])
  {
    hide ReplaceAll, Rendered;
    assert Pattern("a") == "{{a}}" && Pattern("b") == "{{b}}";
    RenderedTwice("{{a}}", ("a", "{{b}}"), ("b", "x"));
    RenderedTwice("{{a}}", ("b", "x"), ("a", "{{b}}"));
    LonePlaceholder("a", "a", "{{b}}");
    LonePlaceholder("b", "b", "x");
    LonePlaceholder("a", "b", "x");
  }

  // ----- dollar patterns in values

  function DollarsDoubled(value: string): string {
    if value == "" then "" else (if value[0] == '$' then "$$" else [value[0]]) + DollarsDoubled(value[1..])
  }

  /** Any value is inserted as it is when it is written with its dollars doubled. */
  lemma {:induction false} DoubledDollarsInsertAsIs(value: string, matched: string, before: string, after: string)
    ensures Expand(DollarsDoubled(value), matched, before, after) == value
  {
    if value != "" {
      DoubledDollarsInsertAsIs(value[1..], matched, before, after);
      var doubled := DollarsDoubled(value);
      if value[0] == '$' {
        assert doubled[2..] == DollarsDoubled(value[1..]) && doubled[1] == '$';
        assert "$" + value[1..] == value;
      } else {
        assert doubled[1..] == DollarsDoubled(value[1..]);
        assert [value[0]] + value[1..] == value;
      }
    }
  }

  /** Behind text without patterns, a dollar pattern stands for a dollar, the match, or the text
      before or after it, and reading goes on behind it. */
  lemma {:induction false} PatternStandsFor(prefix: string, c: char, rest: string, matched: string, before: string,
                                            after: string)
    requires PatternFree(prefix) && (prefix != "" ==> prefix[|prefix| - 1] != '$')
    requires c in {'$', '&', '`', '\''}
    ensures Expand(prefix + ['$', c] + rest, matched, before, after)
            == prefix
               + (if c == '$' then "$" else if c == '&' then matched else if c == '`' then before else after)
               + Expand(rest, matched, before, after)
  {
    var pattern := ['$', c] + rest;
    PrefixInserts(prefix, pattern, matched, before, after);
    assert prefix + ['$', c] + rest == prefix + pattern;
    assert pattern[2..] == rest;
  }

  lemma {:induction false} PrefixInserts(prefix: string, rest: string, matched: string, before: string, after: string)
    requires PatternFree(prefix) && (prefix != "" ==> prefix[|prefix| - 1] != '$')
    ensures Expand(prefix + rest, matched, before, after) == prefix + Expand(rest, matched, before, after)
  {
    if prefix == "" {
      assert prefix + rest == rest;
    } else {
      assert (prefix + rest)[1..] == prefix[1..] + rest;
      PrefixInserts(prefix[1..], rest, matched, before, after);
      assert [prefix[0]] + prefix[1..] == prefix;
    }
  }

  predicate IsDollars(s: string) {
    forall i :: 0 <= i < |s| ==> s[i] == '$'
  }

  predicate Plain(s: string) {
    s != "" && s[0] != '$'
  }

  /** Where the match and the texts around it begin with no dollar, what is inserted is neither
      the value nor the value after some dollars, unless the value has no pattern. */
  lemma {:induction false} ExpandChanges(value: string, dollars: string, matched: string, before: string, after: string)
    requires Plain(matched) && Plain(before) && Plain(after) && IsDollars(dollars)
    requires Expand(value, matched, before, after) == dollars + value
    ensures dollars == "" && PatternFree(value)
  {
    var inserted := Expand(value, matched, before, after);
    if value != "" {
      assert inserted[0] == if dollars == "" then value[0] else '$';
      if !IsPattern(value) {
        assert inserted == [value[0]] + Expand(value[1..], matched, before, after);
        assert dollars + value == [value[0]] + (dollars + value[1..]);
        assert Expand(value[1..], matched, before, after) == inserted[1..];
        ExpandChanges(value[1..], dollars, matched, before, after);
      } else if value[1] == '$' {
        assert inserted == "$" + Expand(value[2..], matched, before, after);
        assert dollars + value == "$" + ((dollars + "$") + value[2..]);
        assert Expand(value[2..], matched, before, after) == inserted[1..];
        ExpandChanges(value[2..], dollars + "$", matched, before, after);
      }
    }
  }

  ghost predicate InsertedAsIs(value: string) {
    forall matched, before, after :: Expand(value, matched, before, after) == value
  }

  /** A value is inserted as it is in every place iff it has no dollar pattern. */
  lemma {:induction false} InsertedAsIsExactly(value: string)
    ensures InsertedAsIs(value) <==> PatternFree(value)
  {
    if PatternFree(value) {
      forall matched, before, after
        ensures Expand(value, matched, before, after) == value
      {
        PatternFreeInserts(value, matched, before, after);
      }
    } else if InsertedAsIs(value) {
      assert Expand(value, "x", "x", "x") == "" + value;
      ExpandChanges(value, "", "x", "x", "x");
    }
  }

  // ----- which values and which literals the loop carries

  predicate Simultaneous(pieces: seq<Piece>, entries: Entries) {
    Rendered(TextOf(pieces), entries) == TextOf(Substituted(pieces, ValuesOf(entries)))
  }

  /** Replacing with nothing never lengthens, and shortens where there is a match. */
  lemma {:induction false} Shortened(text: string, pattern: string, before: string)
    requires pattern != ""
    ensures |ReplaceAll(text, pattern, "", before)| <= |text|
    ensures (exists k :: 0 <= k <= |text| && pattern <= text[k..]) ==> |ReplaceAll(text, pattern, "", before)| < |text|
  {
    if text != "" {
      if pattern <= text {
        Shortened(text[|pattern|..], pattern, before + pattern);
      } else {
        Shortened(text[1..], pattern, before + [text[0]]);
        if k :| 0 <= k <= |text| && pattern <= text[k..] {
          assert text[k..] == text[1..][k - 1..];
        }
      }
    }
  }

  lemma {:induction false} BracesAreClosed()
    ensures Closed("") && Closed("}") && Closed("}}") && Closed("b}}") && Closed("{b}}")
  {
    BraceFreeIsClosed("}");
    BraceFreeIsClosed("}}");
    BraceFreeIsClosed("b}}");
    assert "{b}}"[1..] == "b}}";
  }

  lemma {:induction false} TailCompleted(word: string, tail: string) returns (rest: string)
    requires tail == "" || tail == "}" || "}}" <= tail
    ensures Closed(rest) && Pattern(word) <= "{{" + word + tail + rest
  {
    BracesAreClosed();
    hide Closed;
    if tail == "" {
      rest := "}}";
      assert "{{" + word + tail + rest == Pattern(word);
    } else if tail == "}" {
      rest := "}";
      assert "{{" + word + tail + rest == Pattern(word);
    } else {
      rest := "";
      assert "{{" + word + tail + rest == Pattern(word) + tail[2..];
    }
  }

  /** A string in which a match may begin is completed to one by some closed text. */
  lemma {:induction false} OpeningCompleted(s: string) returns (name: string, rest: string)
    requires s != "" && Opens(s)
    ensures IsWord(name) && Closed(rest) && Pattern(name) <= s + rest
  {
    hide Closed, WordLength;
    if s == "{" {
      BracesAreClosed();
      name, rest := "b", "{b}}";
    } else {
      var word := s[2..2 + WordLength(s[2..])];
      var tail := s[2 + |word|..];
      WordLengthIsWord(s[2..]);
      assert s == "{{" + word + tail;
      if word == "" {
        BracesAreClosed();
        name, rest := "b", "b}}";
        assert tail == "" && s + rest == Pattern(name);
      } else {
        name := word;
        rest := TailCompleted(word, tail);
      }
    }
  }

  lemma {:induction false} UnclosedCompleted(s: string) returns (k: nat, name: string, rest: string)
    requires !Closed(s)
    ensures IsWord(name) && Closed(rest) && k <= |s + rest| && Pattern(name) <= (s + rest)[k..]
  {
    if Opens(s) {
      name, rest := OpeningCompleted(s);
      k := 0;
      assert (s + rest)[0..] == s + rest;
    } else {
      var later;
      later, name, rest := UnclosedCompleted(s[1..]);
      k := later + 1;
      assert (s + rest)[k..] == (s[1..] + rest)[later..];
    }
  }

  /** Whatever else is in the template and among the entries, the value is carried. */
  ghost predicate ValueCarried(value: string) {
    forall pieces, before, key, after ::
      WellFormed(pieces) && Keyed(Around(before, key, value, after)) && Usable(before) && Usable(after) ==>
        Simultaneous(pieces, Around(before, key, value, after))
  }

  function Around(before: Entries, key: string, value: string, after: Entries): Entries {
    before + [(key, value)] + after
  }

  lemma {:induction false} BetweenLetters(value: string)
    ensures Rendered("x" + (Pattern("a") + "x"), [("a", value)]) == "x" + (Expand(value, Pattern("a"), "x", "x") + "x")
  {
    hide Expand;
    var x := "x";
    BraceFreeIsClosed(x);
    RenderedOnce(x + (Pattern("a") + x), ("a", value));
    ReplaceSkips(x, Pattern("a") + x, "a", value, "");
    ReplaceAtPlaceholder("a", x, value, x);
    ReplaceSkips(x, "", "a", value, x + Pattern("a"));
    assert x + "" == x && "" + x == x;
  }

  /** A dollar pattern shows between two letters. */
  lemma {:induction false} PatternNotCarried(value: string)
    requires !PatternFree(value)
    ensures !ValueCarried(value)
  {
    hide Expand, Closed, PatternFree, Rendered, ReplaceAll;
    var pieces := [Literal("x"), Placeholder("a"), Literal("x")];
    var entries := Around([], "a", value, []);
    var filled := Substituted(pieces, map["a" := value]);
    BraceFreeIsClosed("x");
    BetweenLetters(value);
    ThreePieces(pieces);
    ThreePieces(filled);
    assert entries == [("a", value)] && entries[..0] == [];
    assert ValuesOf(entries) == map["a" := value];
    assert WellFormed(pieces) && Keyed(entries) && Usable([]);
    if ValueCarried(value) {
      assert Simultaneous(pieces, entries);
      var inserted := Expand(value, Pattern("a"), "x", "x");
      assert "x" + (inserted + "x") == "x" + (value + "x");
      assert inserted == ("x" + (inserted + "x"))[1..][..|inserted|] && value == ("x" + (value + "x"))[1..][..|value|];
      assert "" + value == value;
      ExpandChanges(value, "", Pattern("a"), "x", "x");
    }
  }

  lemma {:induction false} ThreePieces(pieces: seq<Piece>)
    requires |pieces| == 3
    ensures TextOf(pieces) == PieceText(pieces[0]) + (PieceText(pieces[1]) + PieceText(pieces[2]))
  {
    TwoPieces(pieces[1..]);
  }

  lemma {:induction false} TwoPieces(pieces: seq<Piece>)
    requires |pieces| == 2
    ensures TextOf(pieces) == PieceText(pieces[0]) + PieceText(pieces[1])
  {
    assert pieces[1..][1..] == [] && TextOf(pieces[1..]) == PieceText(pieces[1]) + "";
  }

  lemma {:induction false} OpeningShows(value: string, key: string, k: nat, name: string, rest: string)
    requires PatternFree(value) && IsWord(key) && IsWord(name) && Closed(rest) && key != name
    requires k <= |value + rest| && Pattern(name) <= (value + rest)[k..]
    ensures !Simultaneous([Placeholder(key), Literal(rest)], [(key, value), (name, "")])
  {
    hide Expand, Closed, Rendered, ReplaceAll, PatternFree, IsWord, ValuesOf;
    var pieces, first := [Placeholder(key), Literal(rest)], map[key := value];
    RenderedTwice(TextOf(pieces), (key, value), (name, ""));
    ReplaceOneKey(pieces, key, value, "");
    TwoPieces(Substituted(pieces, first));
    Shortened(value + rest, Pattern(name), "");
    TwoValues((key, value), (name, ""));
    assert Substituted(pieces, first[name := ""]) == Substituted(pieces, first);
  }

  /** A value in which a match begins is completed to one by the literal after it. */
  lemma {:induction false} OpeningNotCarried(value: string)
    requires PatternFree(value) && !Closed(value)
    ensures !ValueCarried(value)
  {
    hide PatternFree, Closed, Simultaneous;
    var k, name, rest := UnclosedCompleted(value);
    var key := name + "a";
    var pieces := [Placeholder(key), Literal(rest)];
    var entries := Around([], key, value, [(name, "")]);
    assert |key| != |name| && entries == [(key, value), (name, "")];
    OpeningShows(value, key, k, name, rest);
    EmptyIsInert();
    assert WellFormed(pieces) && Keyed(entries) && Usable([(name, "")]) && Usable([]);
  }

  lemma {:induction false} EmptyIsInert()
    ensures Inert("")
  {
  }

  lemma {:induction false} TwoValues(first: (string, string), second: (string, string))
    ensures ValuesOf([first, second]) == map[first.0 := first.1][second.0 := second.1]
  {
    assert [first, second][..1] == [first] && [first][..0] == [] && ValuesOf([]) == map[];
  }

  /** A value is carried, whatever else is in the template and among the entries, iff no match
      begins in it and it has no dollar pattern. */
  lemma {:induction false} ValueCarriedExactly(value: string)
    ensures ValueCarried(value) <==> Inert(value)
  {
    hide PatternFree, Closed, Keyed, Rendered, TextOf, Substituted;
    if Inert(value) {
      forall pieces, before, key, after |
        WellFormed(pieces) && Keyed(Around(before, key, value, after)) && Usable(before) && Usable(after)
        ensures Simultaneous(pieces, Around(before, key, value, after))
      {
        LoopIsSimultaneous(pieces, Around(before, key, value, after));
      }
    } else if PatternFree(value) {
      OpeningNotCarried(value);
    } else {
      PatternNotCarried(value);
    }
  }

  /** Whatever stands around it and whatever is filled in, the literal is carried. */
  ghost predicate LiteralCarried(text: string) {
    forall before, after, entries :: WellFormed(before) && WellFormed(after) && Usable(entries) ==>
      Simultaneous(before + [Literal(text)] + after, entries)
  }

  /** A literal is carried, whatever is in the template and among the entries, iff no match
      begins in it. */
  lemma {:induction false} LiteralCarriedExactly(text: string)
    ensures LiteralCarried(text) <==> Closed(text)
  {
    hide PatternFree, Keyed, Rendered, TextOf, Substituted;
    if Closed(text) {
      forall before, after, entries | WellFormed(before) && WellFormed(after) && Usable(entries)
        ensures Simultaneous(before + [Literal(text)] + after, entries)
      {
        LoopIsSimultaneous(before + [Literal(text)] + after, entries);
      }
    } else {
      LiteralNotCarried(text);
    }
  }

  lemma {:induction false} LiteralNotCarried(text: string)
    requires !Closed(text)
    ensures !LiteralCarried(text)
  {
    var k, name, rest := UnclosedCompleted(text);
    var pieces := [] + [Literal(text)] + [Literal(rest)];
    hide Expand, Closed, Rendered, ReplaceAll;
    EmptyIsInert();
    assert WellFormed([Literal(rest)]) && Usable([(name, "")]);
    RenderedOnce(TextOf(pieces), (name, ""));
    TwoPieces(pieces);
    Shortened(text + rest, Pattern(name), "");
    assert Substituted(pieces, ValuesOf([(name, "")])) == pieces;
    assert WellFormed([]) && !Simultaneous(pieces, [(name, "")]);
  }

  // ----- any text: what is a match, and what is replaced

  lemma {:induction false} WordCharsAre(c: char)
    ensures IsWordChar(c)
            <==> 48 <= c as int <= 57 || 65 <= c as int <= 90 || c as int == 95 || 97 <= c as int <= 122
  {
  }

  lemma {:induction false} MatchedHere(text: string, name: string)
    requires IsWord(name) && Pattern(name) <= text
    ensures Matches(text) == [name] + Matches(text[|name| + 4..])
  {
    var rest := text[|name| + 4..];
    assert text == Pattern(name) + rest;
    MatchesAtPlaceholder(name, rest);
  }

  /** Some placeholder stands at the start of the text. */
  ghost predicate Starts(text: string) {
    exists name :: IsWord(name) && Pattern(name) <= text
  }

  lemma {:induction false} HeadMatchStarts(text: string, n: nat)
    requires "{{" <= text && n == WordLength(text[2..]) && n > 0 && "}}" <= text[2 + n..]
    ensures Starts(text)
  {
    WordLengthIsWord(text[2..]);
    assert text == Pattern(text[2..2 + n]) + text[4 + n..];
  }

  lemma {:induction false} NoMatchHere(text: string)
    requires text != "" && !Starts(text)
    ensures Matches(text) == Matches(text[1..])
  {
    hide Starts;
    if "{{" <= text {
      var n := WordLength(text[2..]);
      if n > 0 && "}}" <= text[2 + n..] { HeadMatchStarts(text, n); }
    }
  }

  lemma {:induction false} MatchesFrom(text: string, k: nat)
    requires k <= |text| && forall j :: 0 <= j < k ==> !Starts(text[j..])
    ensures Matches(text) == Matches(text[k..])
  {
    hide Matches, Starts;
    if k == 0 {
      assert text[k..] == text;
    } else {
      MatchesFrom(text, k - 1);
      NoMatchHere(text[k - 1..]);
      assert text[k - 1..][1..] == text[k..];
    }
  }

  /** In any text the names matched are the first placeholder's, then those of the text behind it. */
  lemma {:induction false} MatchesLeftmost(text: string, k: nat, name: string)
    requires k <= |text| && IsWord(name) && Pattern(name) <= text[k..]
    requires forall j :: 0 <= j < k ==> !Starts(text[j..])
    ensures Matches(text) == [name] + Matches(text[k..][|name| + 4..])
  {
    assert |Pattern(name)| == |name| + 4;
    hide Matches, Starts, Pattern, IsWord;
    MatchesFrom(text, k);
    MatchedHere(text[k..], name);
  }

  /** A text with no placeholder anywhere has no matches. */
  lemma {:induction false} NoMatches(text: string)
    requires forall j :: 0 <= j <= |text| ==> !Starts(text[j..])
    ensures Matches(text) == []
  {
    MatchesFrom(text, |text|);
  }

  lemma {:induction false} ReplacesFrom(text: string, k: nat, pattern: string, value: string, before: string)
    requires pattern != "" && k <= |text| && forall j :: 0 <= j < k ==> !(pattern <= text[j..])
    ensures ReplaceAll(text, pattern, value, before)
            == text[..k] + ReplaceAll(text[k..], pattern, value, before + text[..k])
  {
    hide ReplaceAll;
    if k == 0 {
      assert text[k..] == text && text[..k] == "" && before + "" == before;
    } else {
      var rest := text[k - 1..];
      ReplacesFrom(text, k - 1, pattern, value, before);
      ReplaceStep(rest, pattern, value, before + text[..k - 1]);
      assert rest[1..] == text[k..] && text[..k - 1] + [rest[0]] == text[..k];
      assert before + text[..k - 1] + [rest[0]] == before + text[..k];
    }
  }

  /** In any text the first match of a pattern is replaced, and then those of the text behind it; what
      stands before it stays. */
  lemma {:induction false} ReplacesLeftmost(text: string, k: nat, pattern: string, value: string, before: string)
    requires pattern != "" && k <= |text| && pattern <= text[k..]
    requires forall j :: 0 <= j < k ==> !(pattern <= text[j..])
    ensures var passed, rest := before + text[..k], text[k..][|pattern|..];
      ReplaceAll(text, pattern, value, before)
      == text[..k] + (Expand(value, pattern, passed, rest) + ReplaceAll(rest, pattern, value, passed + pattern))
  {
    hide ReplaceAll, Expand;
    ReplacesFrom(text, k, pattern, value, before);
    ReplaceHere(text[k..], pattern, value, before + text[..k]);
  }

  /** A text without the pattern stays as it is. */
  lemma {:induction false} ReplacesNothing(text: string, pattern: string, value: string, before: string)
    requires pattern != "" && forall j :: 0 <= j <= |text| ==> !(pattern <= text[j..])
    ensures ReplaceAll(text, pattern, value, before) == text
  {
    ReplacesFrom(text, |text|, pattern, value, before);
    assert text[|text|..] == "" && text[..|text|] == text && text + "" == text;
  }

  // ----- what is left

  lemma {:induction false} WordLengthIsWord(s: string)
    ensures forall i :: 0 <= i < WordLength(s) ==> IsWordChar(s[i])
  {
    if s != "" && IsWordChar(s[0]) { WordLengthIsWord(s[1..]); }
  }

  lemma {:induction false} MatchesSkip(text: string, rest: string)
    requires Closed(text)
    ensures Matches(text + rest) == Matches(rest)
    decreases |text|
  {
    hide Matches, Opens, IsWord, Pattern;
    var t := text + rest;
    if text == "" {
      assert t == rest;
    } else {
      if Starts(t) {
        var name :| IsWord(name) && Pattern(name) <= t;
        MatchOpens(text, rest, name);
      }
      NoMatchHere(t);
      assert t[1..] == text[1..] + rest;
      MatchesSkip(text[1..], rest);
    }
  }

  lemma {:induction false} MatchesAtPlaceholder(name: string, rest: string)
    requires IsWord(name)
    ensures Matches(Pattern(name) + rest) == [name] + Matches(rest)
  {
    var text, n := Pattern(name) + rest, |name|;
    assert "{{" <= text && text[2..] == name + ("}}" + rest);
    WordLengthOf(name, "}}" + rest);
    assert text[2 + n..] == "}}" + rest && text[2..2 + n] == name && text[4 + n..] == rest;
  }

  /** In a well-formed text the matches are exactly its placeholders. */
  lemma {:induction false} MatchesAreNames(pieces: seq<Piece>)
    requires WellFormed(pieces)
    ensures Matches(TextOf(pieces)) == NamesOf(pieces)
  {
    assert Matches("") == [];
    hide Matches, Closed, IsWord, Pattern;
    if pieces != [] {
      var rest := TextOf(pieces[1..]);
      MatchesAreNames(pieces[1..]);
      match pieces[0]
      case Literal(text) => MatchesSkip(text, rest);
      case Placeholder(name) => MatchesAtPlaceholder(name, rest);
    }
  }

  lemma {:induction false} NamesLeft(pieces: seq<Piece>, values: map<string, string>)
    ensures NamesOf(Substituted(pieces, values)) == Filter(name => name !in values, NamesOf(pieces))
  {
    if pieces != [] {
      NamesLeft(pieces[1..], values);
      assert Substituted(pieces, values)[1..] == Substituted(pieces[1..], values);
      var first := if pieces[0].Placeholder? then [pieces[0].name] else [];
      FilterConcat(name => name !in values, first, NamesOf(pieces[1..]));
    }
  }

  /** The rendered text's placeholders are exactly those whose names were not supplied. */
  lemma {:induction false} UnsuppliedRemain(pieces: seq<Piece>, entries: Entries)
    requires WellFormed(pieces) && Usable(entries)
    ensures Matches(Rendered(TextOf(pieces), entries))
            == Filter(name => name !in ValuesOf(entries), Matches(TextOf(pieces)))
  {
    LoopIsSimultaneous(pieces, entries);
    MatchesAreNames(pieces);
    MatchesAreNames(Substituted(pieces, ValuesOf(entries)));
    NamesLeft(pieces, ValuesOf(entries));
  }

  lemma {:induction false} BlankTrims(s: string)
    ensures Trim(s) == "" <==> forall i :: 0 <= i < |s| ==> IsSpace(s[i])
  {
    hide IsSpace;
    StartBlank(s);
    EndBlank(TrimStart(s));
  }

  lemma {:induction false} StartBlank(s: string)
    ensures TrimStart(s) == "" <==> forall i :: 0 <= i < |s| ==> IsSpace(s[i])
    ensures TrimStart(s) != "" ==> !IsSpace(TrimStart(s)[0])
  {
    if s != "" && IsSpace(s[0]) {
      StartBlank(s[1..]);
      assert forall i :: 1 <= i < |s| ==> s[i] == s[1..][i - 1];
    }
  }

  lemma {:induction false} EndBlank(s: string)
    requires s != "" ==> !IsSpace(s[0])
    ensures TrimEnd(s) == "" <==> s == ""
  {
    if s != "" && IsSpace(s[|s| - 1]) { EndBlank(s[..|s| - 1]); }
  }

  /** The name has no value of its own, or one of white space only. */
  predicate HasNoText(values: map<string, string>, name: string) {
    name in values ==> forall i :: 0 <= i < |values[name]| ==> IsSpace(values[name][i])
  }

  /** The check throws iff a name it asks for has no value of its own but an inherited one; else
      the missing variables are exactly those, declared or else matched in the body, that have no
      value or one of white space only. */
  lemma {:induction false} MissingExactly(template: Template, values: map<string, string>, name: string)
    ensures MissingVariables(template, values).None?
            <==> exists n :: n in template.variables.UnwrapOr(Matches(template.body)) && n !in values && n in INHERITED
    ensures MissingVariables(template, values).Some? ==>
      && (name in MissingVariables(template, values).value
          <==> name in template.variables.UnwrapOr(Matches(template.body)) && HasNoText(values, name))
      && MissingVariables(template, values).value
         == Filter(n => HasNoText(values, n), template.variables.UnwrapOr(Distinct(Matches(template.body))))
  {
    hide Trim, IsSpace;
    var firsts := DistinctExactly(Matches(template.body));
    if name in values { BlankTrims(values[name]); }
    if n :| n in Asked(template) && Trips(values, n) {
      assert n in template.variables.UnwrapOr(Matches(template.body));
    }
    if name in Asked(template) && Lacks(values, name) {
      FilterFinds(n => Lacks(values, n), Asked(template), name);
    }
    forall n | n in Asked(template)
      ensures Lacks(values, n) <==> HasNoText(values, n)
    {
      if n in values { BlankTrims(values[n]); }
    }
    FilterAgrees(n => Lacks(values, n), n => HasNoText(values, n), Asked(template));
  }

  /** A template whose variables are read off its body, accepted by the check, renders to a
      text without placeholders. */
  lemma {:induction false} AcceptedRendersFully(pieces: seq<Piece>, entries: Entries)
    requires WellFormed(pieces) && Usable(entries)
    requires MissingVariables(Template(TextOf(pieces), None), ValuesOf(entries)) == Some([])
    ensures Matches(Rendered(TextOf(pieces), entries)) == []
  {
    var values, names := ValuesOf(entries), Matches(TextOf(pieces));
    forall name | name in names
      ensures name in values
    {
      MissingExactly(Template(TextOf(pieces), None), values, name);
    }
    UnsuppliedRemain(pieces, entries);
    FilterNone(name => name !in values, names);
  }
}
