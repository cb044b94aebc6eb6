/** The checksum file: what is printed for a list of artifacts, and the check that a file is exactly that. */
module Checksums {
  import opened Common
  import opened Order

  /**
   A directory, as far as checksums see it: which byte strings are valid UTF-8, and the SHA-256 in hexadecimal of
   the artifact a name resolves to, if it resolves to a readable regular file inside the directory.
   */
  datatype Tree = Tree(utf8: string -> bool, hash: string -> Option<string>)

  predicate HexDigit(c: char) {
    '0' <= c <= '9' || 'a' <= c <= 'f' || 'A' <= c <= 'F'
  }

  // -------------------------------------------------------------------------------------------- splitting into lines

  /** The pieces of the text between separators; there is always one. */
  function Split(text: string, separator: char := '\n'): (lines: seq<string>)
    ensures |lines| > 0
  {
    if text == "" then [""]
    else if text[0] == separator then [""] + Split(text[1..], separator)
    else
      var rest := Split(text[1..], separator);
      [[text[0]] + rest[0]] + rest[1..]
  }

  /**
   A path that cleaning would leave alone, given that it is relative and not the directory itself: no empty
   component, none that stands for the same directory, and the parent directory only in front.
   */
  predicate IsClean(name: string) {
    var parts := Split(name, '/');
    && (forall i | 0 <= i < |parts| :: parts[i] != "" && parts[i] != ".")
    && (forall i, j | 0 <= i < j < |parts| :: parts[j] == ".." ==> parts[i] == "..")
  }

  /** validateArtifactName: no rule excludes a newline. */
  predicate ValidName(tree: Tree, name: string) {
    && name != "" && |name| <= 512 && tree.utf8(name)
    && '\\' !in name && !("/" <= name) && IsClean(name) && name != "."
  }

  predicate Ascii(text: string) {
    forall c <- text :: (c as int) < 0x80
  }

  ghost predicate ValidTree(tree: Tree) {
    && (forall text: string | Ascii(text) :: tree.utf8(text))
    && (forall name: string :: tree.hash(name).Some? ==>
          && ValidName(tree, name)
          && |tree.hash(name).value| == 64
          && forall c <- tree.hash(name).value :: HexDigit(c))
  }

  function Join(lines: seq<string>): string
    requires |lines| > 0
  {
    if |lines| == 1 then lines[0] else lines[0] + "\n" + Join(lines[1..])
  }

  predicate OneLine(line: string) {
    '\n' !in line
  }

  predicate OneLineEach(lines: seq<string>) {
    forall i | 0 <= i < |lines| :: OneLine(lines[i])
  }

  /** A first character other than a newline goes to the first line. */
  lemma JoinCharacter(c: char, lines: seq<string>)
    requires |lines| > 0
    ensures Join([[c] + lines[0]] + lines[1..]) == [c] + Join(lines)
  {
    var longer := [[c] + lines[0]] + lines[1..];
    assert longer[0] == [c] + lines[0] && longer[1..] == lines[1..];
    if |lines| > 1 {
      hide Join;
      JoinMany(longer);
      JoinMany(lines);
      Associate([c], lines[0], "\n", Join(lines[1..]));
    } else {
      JoinOne(longer[0]);
      assert longer == [longer[0]];
    }
  }

  lemma Associate(a: string, b: string, c: string, d: string)
    ensures (a + b) + c + d == a + (b + c + d)
  {
  }

  lemma JoinMany(lines: seq<string>)
    requires |lines| > 1
    ensures Join(lines) == lines[0] + "\n" + Join(lines[1..])
  {
  }

  lemma {:induction false} JoinOfSplit(text: string)
    ensures Join(Split(text)) == text
    ensures OneLineEach(Split(text))
  {
    if text != "" {
      hide Join;
      var rest := Split(text[1..]);
      JoinOfSplit(text[1..]);
      assert text == [text[0]] + text[1..];
      if text[0] == '\n' {
        JoinEmptyLine(rest);
      } else {
        JoinCharacter(text[0], rest);
        assert OneLine(rest[0]);
      }
    }
  }

  lemma JoinEmptyLine(lines: seq<string>)
    requires |lines| > 0
    ensures Join([""] + lines) == "\n" + Join(lines)
  {
    assert ([""] + lines)[1..] == lines;
  }

  lemma {:induction false} SplitOfJoin(lines: seq<string>)
    requires |lines| > 0 && OneLineEach(lines)
    ensures Split(Join(lines)) == lines
    decreases |lines|, |lines[0]|
  {
    hide Join;
    var tail := lines[1..];
    if lines[0] == "" {
      assert lines == [""] + tail;
      if tail == [] {
        assert lines == [""];
        JoinOne("");
      } else {
        JoinEmptyLine(tail);
        SplitOfJoin(tail);
        assert ("\n" + Join(tail))[1..] == Join(tail);
      }
    } else {
      var c := lines[0][0];
      var shorter := [lines[0][1..]] + tail;
      assert OneLine(lines[0]) && c in lines[0];
      assert lines[0] == [c] + lines[0][1..] && lines == [[c] + shorter[0]] + shorter[1..];
      JoinCharacter(c, shorter);
      SplitOfJoin(shorter);
      assert ([c] + Join(shorter))[1..] == Join(shorter);
    }
  }

  lemma JoinOne(line: string)
    ensures Join([line]) == line
  {
  }

  /** The text without its final newline, if it has one. */
  function WithoutFinalNewline(text: string): string {
    if |text| > 0 && text[|text| - 1] == '\n' then text[..|text| - 1] else text
  }

  // ------------------------------------------------------------------------------------------------------- printing

  function Line(tree: Tree, name: string): string
    requires tree.hash(name).Some?
  {
    tree.hash(name).value + "  " + name
  }

  ghost predicate Present(tree: Tree, names: seq<string>) {
    forall i | 0 <= i < |names| :: tree.hash(names[i]).Some?
  }

  ghost function LinesOf(tree: Tree, names: seq<string>): (lines: seq<string>)
    requires Present(tree, names)
    ensures |lines| == |names|
  {
    seq(|names|, (i: nat) requires i < |names| => Line(tree, names[i]))
  }

  /** One terminated line per name, in the given order. */
  ghost function Printed(tree: Tree, names: seq<string>): string
    requires Present(tree, names)
  {
    if names == [] then ""
    else Printed(tree, names[..|names| - 1]) + Line(tree, names[|names| - 1]) + "\n"
  }

  /** Writes the lines in name order, and fails exactly when some artifact cannot be read. */
  method WriteChecksums(tree: Tree, names: seq<string>) returns (output: Option<string>)
    ensures output.Some? <==> Present(tree, Sorted(names))
    ensures output.Some? ==> output.value == Printed(tree, Sorted(names))
  {
    var sorted := Sorted(names);
    var text := "";
    for i := 0 to |sorted|
      invariant Present(tree, sorted[..i]) && text == Printed(tree, sorted[..i])
    {
      var hash := tree.hash(sorted[i]);
      if hash.None? {
        return None;
      }
      text := text + hash.value;
      text := text + "  ";
      text := text + sorted[i];
      text := text + "\n";
      assert sorted[..i + 1][..i] == sorted[..i];
      assert text == Printed(tree, sorted[..i]) + Line(tree, sorted[i]) + "\n";
    }
    assert sorted[..|sorted|] == sorted;
    output := Some(text);
  }

  // ------------------------------------------------------------------------------------------------------- checking

  /** The line is the one that would be printed for this name, which is not that of the checksum file. */
  ghost predicate GoodLine(tree: Tree, checksumName: string, line: string, name: string) {
    name != checksumName && tree.hash(name).Some? && line == Line(tree, name)
  }

  method CheckLine(tree: Tree, checksumName: string, line: string, expected: string, seen: set<string>) returns (ok: bool)
    requires ValidTree(tree)
    ensures ok <==> GoodLine(tree, checksumName, line, expected) && expected !in seen
  {
    if |line| < 67 || line[64..66] != "  " {
      return false;
    }
    var hashHex, name := line[..64], line[66..];
    assert line == hashHex + line[64..66] + name;
    if !(forall c <- hashHex :: HexDigit(c)) {
      return false;
    }
    if !ValidName(tree, name) || name == checksumName {
      return false;
    }
    if name != expected {
      return false;
    }
    if name in seen {
      return false;
    }
    var hash := tree.hash(name);
    if hash.None? {
      return false;
    }
    ok := hash.value == hashHex;
  }

  /** Exactly one good line per expected name, in order. */
  ghost predicate GoodLines(tree: Tree, checksumName: string, lines: seq<string>, names: seq<string>) {
    && |lines| == |names| && Distinct(names)
    && (forall i | 0 <= i < |lines| :: GoodLine(tree, checksumName, lines[i], names[i]))
  }

  lemma EmptyLineIsNotGood(tree: Tree, checksumName: string, name: string)
    ensures !GoodLine(tree, checksumName, "", name)
  {
  }

  method VerifyChecksumsExact(tree: Tree, checksumName: string, text: string, expectedNames: seq<string>) returns (ok: bool)
    requires ValidTree(tree)
    ensures ok <==> GoodLines(tree, checksumName, Split(WithoutFinalNewline(text)), Sorted(expectedNames))
  {
    hide Split, WithoutFinalNewline, Sorted, GoodLine, ValidTree;
    var lines := Split(WithoutFinalNewline(text));
    var expected := Sorted(expectedNames);
    if |lines| == 0 || (|lines| == 1 && lines[0] == "") {
      if |expected| == 1 {
        EmptyLineIsNotGood(tree, checksumName, expected[0]);
      }
      return false;
    }
    if |lines| != |expected| {
      return false;
    }
    var seen: set<string> := {};
    for i := 0 to |lines|
      invariant seen == set name | name in expected[..i]
      invariant Distinct(expected[..i])
      invariant forall k | 0 <= k < i :: GoodLine(tree, checksumName, lines[k], expected[k])
    {
      var good := CheckLine(tree, checksumName, lines[i], expected[i], seen);
      if !good {
        return false;
      }
      seen := seen + {expected[i]};
    }
    assert expected[..|expected|] == expected;
    ok := true;
  }

  // --------------------------------------------------------------------------------------------- printer and checker

  lemma {:induction false} PrintedIsJoin(tree: Tree, names: seq<string>)
    requires Present(tree, names) && |names| > 0
    ensures Printed(tree, names) == Join(LinesOf(tree, names)) + "\n"
  {
    var last := |names| - 1;
    var before := names[..last];
    var lines := LinesOf(tree, names);
    if last > 0 {
      PrintedIsJoin(tree, before);
      assert LinesOf(tree, before) == lines[..last];
      JoinSnoc(lines);
    }
  }

  lemma {:induction false} JoinSnoc(lines: seq<string>)
    requires |lines| > 1
    ensures Join(lines) == Join(lines[..|lines| - 1]) + "\n" + lines[|lines| - 1]
  {
    if |lines| > 2 {
      JoinSnoc(lines[1..]);
      assert lines[1..][..|lines| - 2] == lines[..|lines| - 1][1..];
    }
  }

  /** The names for which there is a text that the check accepts. */
  ghost predicate Checkable(tree: Tree, checksumName: string, names: seq<string>) {
    && |names| > 0 && Distinct(names) && Present(tree, names)
    && (forall i | 0 <= i < |names| :: names[i] != checksumName && OneLine(names[i]))
  }

  /** The check accepts what is printed for the names, with or without the final newline, and no other text. */
  lemma AcceptsPrintedOnly(tree: Tree, checksumName: string, text: string, names: seq<string>)
    requires ValidTree(tree)
    ensures GoodLines(tree, checksumName, Split(WithoutFinalNewline(text)), names) <==>
            && Checkable(tree, checksumName, names)
            && (text == Printed(tree, names) || text + "\n" == Printed(tree, names))
  {
    hide Join, Split, Printed;
    var body := WithoutFinalNewline(text);
    var lines := Split(body);
    JoinOfSplit(body);
    if GoodLines(tree, checksumName, lines, names) {
      forall i | 0 <= i < |names|
        ensures names[i] != checksumName && OneLine(names[i])
      {
        assert OneLine(lines[i]) && GoodLine(tree, checksumName, lines[i], names[i]);
        assert forall k | 0 <= k < |names[i]| :: names[i][k] == lines[i][66 + k];
      }
      assert lines == LinesOf(tree, names);
      PrintedIsJoin(tree, names);
    }
    if Checkable(tree, checksumName, names) && (text == Printed(tree, names) || text + "\n" == Printed(tree, names)) {
      PrintedLinesSplit(tree, checksumName, text, names);
    }
  }

  lemma PrintedLinesSplit(tree: Tree, checksumName: string, text: string, names: seq<string>)
    requires ValidTree(tree) && Checkable(tree, checksumName, names)
    requires text == Printed(tree, names) || text + "\n" == Printed(tree, names)
    ensures GoodLines(tree, checksumName, Split(WithoutFinalNewline(text)), names)
  {
    var lines := LinesOf(tree, names);
    PrintedIsJoin(tree, names);
    forall i | 0 <= i < |lines|
      ensures OneLine(lines[i]) && |lines[i]| > 0
    {
      HashIsOneLine(tree, names[i]);
    }
    LastOfJoin(lines);
    var body := Join(lines);
    assert text == body || text == body + "\n" by {
      if text + "\n" == body + "\n" {
        assert text == (text + "\n")[..|text|] == (body + "\n")[..|body|];
      }
    }
    assert WithoutFinalNewline(text) == body;
    SplitOfJoin(lines);
  }

  lemma HashIsOneLine(tree: Tree, name: string)
    requires ValidTree(tree) && tree.hash(name).Some? && OneLine(name)
    ensures OneLine(Line(tree, name)) && |Line(tree, name)| > 66
  {
    var hash := tree.hash(name).value;
    assert '\n' !in hash by {
      assert !HexDigit('\n');
    }
    assert ValidName(tree, name) && name != "";
  }

  /** The text of whole lines does not end in a newline. */
  lemma {:induction false} LastOfJoin(lines: seq<string>)
    requires |lines| > 0
    requires forall i | 0 <= i < |lines| :: OneLine(lines[i]) && |lines[i]| > 0
    ensures |Join(lines)| > 0 && Join(lines)[|Join(lines)| - 1] != '\n'
  {
    if |lines| > 1 {
      LastOfJoin(lines[1..]);
    } else {
      assert lines[0][|lines[0]| - 1] in lines[0];
    }
  }

  /** Each printed line by offset: 64 hexadecimal digits, two spaces and the name. */
  lemma PrintedPositions(tree: Tree, checksumName: string, names: seq<string>, i: nat)
    requires ValidTree(tree) && Checkable(tree, checksumName, names) && i < |names|
    ensures var lines := Split(WithoutFinalNewline(Printed(tree, names)));
            && |lines| == |names|
            && |lines[i]| == 66 + |names[i]|
            && lines[i][..64] == tree.hash(names[i]).value
            && lines[i][64] == ' ' && lines[i][65] == ' '
            && lines[i][66..] == names[i]
    ensures var text := Printed(tree, names); |text| > 0 && text[|text| - 1] == '\n'
  {
    hide Split, WithoutFinalNewline;
    PrintedLinesSplit(tree, checksumName, Printed(tree, names), names);
    var lines := Split(WithoutFinalNewline(Printed(tree, names)));
    assert GoodLine(tree, checksumName, lines[i], names[i]);
  }

  /** What was written is accepted exactly when there are names, all different, on one line, none the file's own. */
  lemma WrittenIsAccepted(tree: Tree, checksumName: string, names: seq<string>)
    requires ValidTree(tree) && Present(tree, Sorted(names))
    ensures GoodLines(tree, checksumName, Split(WithoutFinalNewline(Printed(tree, Sorted(names)))), Sorted(names)) <==>
            Checkable(tree, checksumName, Sorted(names))
    ensures Checkable(tree, checksumName, Sorted(names)) <==>
            && |names| > 0 && Distinct(names)
            && (forall i | 0 <= i < |names| :: names[i] != checksumName && OneLine(names[i]))
  {
    hide Split, WithoutFinalNewline, Printed, GoodLines, OneLine, Sorted, ValidTree;
    var sorted := Sorted(names);
    AcceptsPrintedOnly(tree, checksumName, Printed(tree, sorted), sorted);
    SortedSorts(names);
    SameMembers(names, sorted);
    SameMembers(sorted, names);
    assert forall i | 0 <= i < |names| :: names[i] in names;
    assert forall i | 0 <= i < |sorted| :: sorted[i] in sorted;
  }

  /** Members and distinctness do not depend on the order of a list. */
  lemma SameMembers(a: seq<string>, b: seq<string>)
    requires multiset(a) == multiset(b)
    ensures |a| == |b| && forall name :: name in a ==> name in b
    ensures Distinct(a) ==> Distinct(b)
  {
    assert |multiset(a)| == |multiset(b)|;
    forall name | name in a
      ensures name in b
    {
      assert name in multiset(a);
    }
    if Distinct(a) {
      forall i, j | 0 <= i < j < |b|
        ensures b[i] != b[j]
      {
        OccursOnce(a, b[i]);
        assert b == b[..j] + b[j..] && b[i] in b[..j] && b[j] in b[j..];
        assert multiset(b)[b[i]] == multiset(b[..j])[b[i]] + multiset(b[j..])[b[i]];
      }
    }
  }

  lemma {:induction false} SplitWithout(text: string, separator: char)
    requires separator !in text
    ensures Split(text, separator) == [text]
  {
    if text != "" {
      assert text[0] in text;
      SplitWithout(text[1..], separator);
      assert text == [text[0]] + text[1..];
    }
  }

  /** The name check accepts a newline; a file under such a name is listed in a text that the check refuses. */
  lemma NewlineInName(tree: Tree, checksumName: string)
    requires ValidTree(tree)
    ensures ValidName(tree, "a\nb")
    ensures tree.hash("a\nb").Some? ==>
              && Present(tree, Sorted(["a\nb"]))
              && !GoodLines(tree, checksumName, Split(WithoutFinalNewline(Printed(tree, Sorted(["a\nb"])))), Sorted(["a\nb"]))
  {
    var name := "a\nb";
    assert Ascii(name);
    SplitWithout(name, '/');
    var names := [name];
    assert names[1..] == [];
    assert Sorted(names) == names;
    assert names[0][1] == '\n' && names[0][1] in names[0];
    if tree.hash(name).Some? {
      WrittenIsAccepted(tree, checksumName, names);
    }
  }
}
