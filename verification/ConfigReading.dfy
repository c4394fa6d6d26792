/** What a given .env file reads as: which lines set a key, to what, and which line wins. */
module ConfigReading {
  import opened Sequences
  import opened JsText
  import opened ConfigMigration

  /** White space, by code point. */
  predicate IsBlankCode(code: int) {
    || 9 <= code <= 13 || code in {32, 160, 0x1680, 0x2028, 0x2029, 0x202F, 0x205F, 0x3000, 0xFEFF}
    || 0x2000 <= code <= 0x200A
  }

  predicate Blank(s: string) {
    forall i :: 0 <= i < |s| ==> IsBlankCode(s[i] as int)
  }

  /** The line holds the setting, with any white space around the key and around the value. */
  ghost predicate Reads(line: string, key: string, value: string) {
    && IsKey(key) && IsValue(value)
    && exists a, b, c, d :: Blank(a) && Blank(b) && Blank(c) && Blank(d) && line == a + key + b + "=" + c + value + d
  }

  lemma {:induction false} SpacesAreBlank(s: string)
    ensures Blank(s) <==> forall i :: 0 <= i < |s| ==> IsSpace(s[i])
  {
    forall i | 0 <= i < |s|
      ensures IsSpace(s[i]) <==> IsBlankCode(s[i] as int)
    {
      SpaceIsBlank(s[i]);
    }
  }

  lemma {:induction false} SpaceIsBlank(c: char)
    ensures IsSpace(c) <==> IsBlankCode(c as int)
  {
  }

  // ----- trimming

  lemma {:induction false} TrimStartDrops(a: string, s: string)
    requires Blank(a) && (s == "" || !IsSpace(s[0]))
    ensures TrimStart(a + s) == s
  {
    hide IsSpace, IsBlankCode;
    if a == "" {
      assert a + s == s;
    } else {
      SpaceIsBlank(a[0]);
      assert (a + s)[1..] == a[1..] + s;
      TrimStartDrops(a[1..], s);
    }
  }

  lemma {:induction false} TrimEndDrops(s: string, d: string)
    requires Blank(d) && (s == "" || !IsSpace(s[|s| - 1]))
    ensures TrimEnd(s + d) == s
  {
    hide IsSpace, IsBlankCode;
    if d == "" {
      assert s + d == s;
    } else {
      var n := |d| - 1;
      SpaceIsBlank(d[n]);
      assert (s + d)[..|s + d| - 1] == s + d[..n];
      TrimEndDrops(s, d[..n]);
    }
  }

  lemma {:induction false} TrimDrops(a: string, s: string, d: string)
    requires Blank(a) && Blank(d) && Trimmed(s)
    ensures Trim(a + s + d) == s
  {
    if s == "" {
      assert a + s + d == (a + d) + "";
      TrimStartDrops(a + d, "");
    } else {
      assert a + s + d == a + (s + d);
      TrimStartDrops(a, s + d);
      TrimEndDrops(s, d);
    }
  }

  lemma {:induction false} TrimStartLeaves(s: string) returns (a: string)
    ensures Blank(a) && s == a + TrimStart(s)
  {
    hide IsSpace, IsBlankCode;
    a := "";
    if s != "" && IsSpace(s[0]) {
      SpaceIsBlank(s[0]);
      var rest := TrimStartLeaves(s[1..]);
      a := [s[0]] + rest;
    }
  }

  lemma {:induction false} TrimEndLeaves(s: string) returns (d: string)
    ensures Blank(d) && s == TrimEnd(s) + d
  {
    hide IsSpace, IsBlankCode;
    d := "";
    if s != "" && IsSpace(s[|s| - 1]) {
      SpaceIsBlank(s[|s| - 1]);
      var rest := TrimEndLeaves(s[..|s| - 1]);
      d := rest + [s[|s| - 1]];
    }
  }

  /** What trimming removes is white space, on both sides. */
  lemma {:induction false} TrimLeaves(s: string) returns (a: string, d: string)
    ensures Blank(a) && Blank(d) && s == a + Trim(s) + d && Trimmed(Trim(s))
  {
    hide IsSpace;
    a := TrimStartLeaves(s);
    d := TrimEndLeaves(TrimStart(s));
    TrimIsSlice(s);
  }

  // ----- one line

  /** From the key to the value, or to the '=' when the value is empty. */
  function Core(key: string, b: string, c: string, value: string): string {
    key + b + "=" + if value == "" then "" else c + value
  }

  lemma {:induction false} CoreIsRead(key: string, b: string, c: string, value: string)
    requires Blank(b) && Blank(c) && IsKey(key) && IsValue(value)
    ensures var core := Core(key, b, c, value); var e := EqualsAt(core);
      e < |core| && Trim(core[..e]) == key && Trim(core[e + 1..]) == value
  {
    assert '=' !in key && Trimmed(key) && Trimmed(value);
    hide Trim, Trimmed, IsSpace, IsKey, IsValue, EqualsAt;
    BlankNothing();
    var core, after := Core(key, b, c, value), if value == "" then "" else c + value;
    assert core == key + b + ("=" + after);
    BlankHasNoEquals(b);
    hide Blank;
    EqualsAfter(key + b, "=" + after);
    assert core[..|key + b|] == "" + key + b && core[|key + b| + 1..] == after;
    TrimDrops("", key, b);
    if value == "" {
      TrimDrops("", "", "");
      assert "" + "" + "" == "";
    } else {
      TrimDrops(c, value, "");
      assert c + value + "" == after;
    }
  }

  lemma {:induction false} SettingIsRead(a: string, key: string, b: string, c: string, value: string, d: string)
    requires Blank(a) && Blank(b) && Blank(c) && Blank(d) && IsKey(key) && IsValue(value)
    ensures ParseLine(a + key + b + "=" + c + value + d) == Some((key, value))
  {
    var core, end := Core(key, b, c, value), if value == "" then c + d else d;
    assert key != "" && key[0] != '#';
    hide Trim, Trimmed, IsSpace, IsKey, IsValue, Blank, EqualsAt;
    assert a + key + b + "=" + c + value + d == a + core + end;
    CoreIsTrimmed(key, b, c, value);
    CoreIsRead(key, b, c, value);
    BlankConcat(c, d);
    TrimDrops(a, core, end);
  }

  lemma {:induction false} BlankNothing()
    ensures Blank("") && Trimmed("")
  {
  }

  lemma {:induction false} BlankHasNoEquals(b: string)
    requires Blank(b)
    ensures '=' !in b
  {
  }

  lemma {:induction false} CoreIsTrimmed(key: string, b: string, c: string, value: string)
    requires IsKey(key) && IsValue(value)
    ensures var core := Core(key, b, c, value);
      Trimmed(core) && core != "" && core[0] == key[0]
  {
    assert !IsSpace('=');
    hide IsSpace;
  }

  lemma {:induction false} ReadIsSetting(line: string, key: string, value: string)
    requires ParseLine(line) == Some((key, value))
    ensures exists a, b, c, d ::
      Blank(a) && Blank(b) && Blank(c) && Blank(d) && line == a + key + b + "=" + c + value + d
  {
    hide IsSpace, Blank, Trimmed;
    var trimmed := Trim(line);
    var e := EqualsAt(trimmed);
    var a, d := TrimLeaves(line);
    var a2, b := TrimLeaves(trimmed[..e]);
    var c, d2 := TrimLeaves(trimmed[e + 1..]);
    hide Trim;
    BlankConcat(a, a2);
    BlankConcat(d2, d);
    assert trimmed == trimmed[..e] + "=" + trimmed[e + 1..];
    assert line == (a + a2) + key + b + "=" + c + value + (d2 + d);
  }

  lemma {:induction false} BlankConcat(a: string, b: string)
    requires Blank(a) && Blank(b)
    ensures Blank(a + b)
  {
  }

  /** A line sets a key to a value exactly when it reads so: with any white space before and after
      the key and the value, and nothing else. */
  lemma {:induction false} LineSetsExactly(line: string, key: string, value: string)
    requires '\n' !in line
    ensures Reads(line, key, value) <==> ParseLine(line) == Some((key, value)) && key != UNSTORED
  {
    hide ParseLine, Blank, IsKey, IsValue;
    if Reads(line, key, value) {
      var a, b, c, d :| Blank(a) && Blank(b) && Blank(c) && Blank(d) && line == a + key + b + "=" + c + value + d;
      SettingIsRead(a, key, b, c, value, d);
      KeyIsStored(key);
    }
    if ParseLine(line) == Some((key, value)) && key != UNSTORED {
      ParsedLineWritable(line);
      ReadIsSetting(line, key, value);
    }
  }

  lemma {:induction false} KeyIsStored(key: string)
    requires IsKey(key)
    ensures key != UNSTORED
  {
  }

  /** A line sets nothing that is blank, is a comment, has no '=', or has nothing before it. */
  lemma {:induction false} LineSetsNothing(line: string, a: string, rest: string, key: string, value: string)
    requires '\n' !in line && Blank(a)
    requires line == a || line == a + "#" + rest || line == a + "=" + rest || '=' !in line
    ensures !Reads(line, key, value)
  {
    hide IsBlankCode, IsKey, IsValue;
    assert line == a || (|a| < |line| && line[|a|] in {'#', '='}) || '=' !in line;
    if Reads(line, key, value) {
      var b := ReadsStart(line, key, value);
      FirstVisible(a, b, line);
      NotBlank();
    }
  }

  lemma {:induction false} NotBlank()
    ensures !IsBlankCode('#' as int) && !IsBlankCode('=' as int)
  {
  }

  /** The first visible character of a line that sets a key is the key's. */
  lemma {:induction false} ReadsStart(line: string, key: string, value: string) returns (b: string)
    requires Reads(line, key, value)
    ensures Blank(b) && b <= line && |b| < |line| && '=' in line
    ensures !IsBlankCode(line[|b|] as int) && line[|b|] != '#' && line[|b|] != '='
  {
    hide IsBlankCode, Blank;
    var c, d, e;
    b, c, d, e :| Blank(b) && Blank(c) && Blank(d) && Blank(e) && line == b + key + c + "=" + d + value + e;
    KeyStartsWell(key);
    hide IsKey, IsValue;
    assert line[|b|] == key[0] && line[|b + key + c|] == '=';
  }

  lemma {:induction false} KeyStartsWell(key: string)
    requires IsKey(key)
    ensures key != "" && !IsBlankCode(key[0] as int) && key[0] != '#' && key[0] != '='
  {
    SpaceIsBlank(key[0]);
    assert key[0] in key;
  }

  /** The first character that is not white space is in one place. */
  lemma {:induction false} FirstVisible(a: string, b: string, line: string)
    requires Blank(a) && Blank(b) && a <= line && b <= line
    requires |b| < |line| && !IsBlankCode(line[|b|] as int)
    ensures |a| <= |b|
    ensures |a| < |b| ==> |a| < |line| && IsBlankCode(line[|a|] as int)
  {
    assert forall k :: 0 <= k < |a| ==> line[k] == a[k];
    assert forall k :: 0 <= k < |b| ==> line[k] == b[k];
  }

  // ----- a file

  /** Line n is the last that sets the key, and sets it to the value. */
  ghost predicate LastSets(lines: seq<string>, n: int, key: string, value: string) {
    && 0 <= n < |lines| && Reads(lines[n], key, value)
    && forall m, other :: n < m < |lines| ==> !Reads(lines[m], key, other)
  }

  lemma {:induction false} LinesRead(lines: seq<string>, key: string, value: string)
    requires forall i :: 0 <= i < |lines| ==> '\n' !in lines[i]
    ensures key in ParsedLines(lines) && ParsedLines(lines)[key] == value
            <==> exists n :: LastSets(lines, n, key, value)
  {
    hide Reads, ParseLine;
    if lines != [] {
      var last := |lines| - 1;
      var init := lines[..last];
      LinesRead(init, key, value);
      forall other { LineSetsExactly(lines[last], key, other); }
      if Reads(lines[last], key, value) {
        assert LastSets(lines, last, key, value);
      }
      if n :| LastSets(init, n, key, value) {
        assert (forall other :: !Reads(lines[last], key, other)) ==> LastSets(lines, n, key, value);
      }
      if n :| LastSets(lines, n, key, value) {
        assert n < last ==> LastSets(init, n, key, value);
      }
    }
  }

  /** For every file, a key is set iff some line reads so, to the value of the last such line. */
  lemma {:induction false} FileReads(lines: seq<string>, key: string, value: string)
    requires lines != [] && forall i :: 0 <= i < |lines| ==> '\n' !in lines[i]
    ensures key in Parsed(Join(lines, "\n")) && Parsed(Join(lines, "\n"))[key] == value
            <==> exists n :: LastSets(lines, n, key, value)
  {
    hide LastSets, ParsedLines, Join, SplitLines;
    SplitJoin(lines);
    LinesRead(lines, key, value);
  }

  /** Every text is its lines, joined. */
  lemma {:induction false} EveryFileIsLines(content: string) returns (lines: seq<string>)
    ensures lines != [] && (forall i :: 0 <= i < |lines| ==> '\n' !in lines[i]) && Join(lines, "\n") == content
  {
    lines := SplitLines(content);
    SplitHasNoBreaks(content);
    JoinSplit(content);
  }

  lemma {:induction false} JoinSplit(content: string)
    ensures Join(SplitLines(content), "\n") == content
  {
    if content != "" {
      JoinSplit(content[1..]);
      var rest := SplitLines(content[1..]);
      if content[0] == '\n' {
        assert ([""] + rest)[1..] == rest;
        assert content == "" + "\n" + content[1..];
      } else {
        var lines := [[content[0]] + rest[0]] + rest[1..];
        assert lines[1..] == rest[1..];
        assert content == [content[0]] + content[1..];
      }
    }
  }
}
