/** Concrete outlines from the module's documentation and its tests, worked
    through the model. Each is first proved for arbitrary payload words and
    then instantiated with the words the source uses. */
module OutlineExamples {
  import opened AsteriskRegex
  import opened PyBuiltins
  import opened LineFilter
  import opened Commands

  /** A payload word of the examples: it holds no asterisk and does not start
      with whitespace. */
  predicate Word(w: string)
  {
    '*' !in w && (|w| > 0 ==> !IsSpace(w[0]))
  }

  /** An item line `<ws><stars> <word>` has as many levels as stars and the
      word as its payload. */
  lemma ItemLine(ws: string, stars: string, w: string)
    requires forall k :: 0 <= k < |ws| ==> IsSpace(ws[k])
    requires |stars| > 0 && forall k :: 0 <= k < |stars| ==> stars[k] == '*'
    requires Word(w)
    ensures Level(ws + stars + " " + w) == |stars| && Payload(ws + stars + " " + w) == w
  {
    DecomposedLine(ws, stars, " ", w);
  }

  /** The item line `* <w>`. */
  lemma Item1(w: string)
    requires Word(w)
    ensures Level("* " + w) == 1 && Payload("* " + w) == w
  {
    assert "* " + w == "" + "*" + " " + w;
    ItemLine("", "*", w);
  }

  /** The item line `** <w>`. */
  lemma Item2(w: string)
    requires Word(w)
    ensures Level("** " + w) == 2 && Payload("** " + w) == w
  {
    assert "** " + w == "" + "**" + " " + w;
    ItemLine("", "**", w);
  }

  /** The item line `*** <w>`. */
  lemma Item3(w: string)
    requires Word(w)
    ensures Level("*** " + w) == 3 && Payload("*** " + w) == w
  {
    assert "*** " + w == "" + "***" + " " + w;
    ItemLine("", "***", w);
  }

  /** The item line ` ** <w>`. */
  lemma Item2Indented(w: string)
    requires Word(w)
    ensures Level(" ** " + w) == 2 && Payload(" ** " + w) == w
  {
    assert " ** " + w == " " + "**" + " " + w;
    ItemLine(" ", "**", w);
  }

  lemma Join2(a: string, b: string)
    ensures Join([a, b]) == a + " " + b
  {
    assert [a, b][1..] == [b];
  }

  lemma Join3(a: string, b: string, c: string)
    ensures Join([a, b, c]) == a + " " + b + " " + c
  {
    assert [a, b, c][1..] == [b, c];
    Join2(b, c);
  }

  /** Moving down into a deeper line extends the chain by the current payload. */
  lemma Rise(lv: seq<nat>, pl: seq<string>, i: nat)
    requires |lv| == |pl| && 0 < i < |lv| && lv[i - 1] < lv[i]
    ensures ChainBefore(lv, pl, i) == ChainBefore(lv, pl, i - 1) + [pl[i - 1]]
  {
  }

  /** Moving to a line at the same or a shallower level keeps `keep` entries
      of the chain, as the slice computes them. */
  lemma Fall(lv: seq<nat>, pl: seq<string>, i: nat, keep: nat)
    requires |lv| == |pl| && 0 < i < |lv| && lv[i] <= lv[i - 1]
    requires keep as int == |ChainBefore(lv, pl, i - 1)| + lv[i] as int - lv[i - 1] as int
    ensures ChainBefore(lv, pl, i) == (ChainBefore(lv, pl, i - 1) + [pl[i - 1]])[..keep]
  {
  }

  /** A leaf adds its command. */
  lemma EmitLeaf(lv: seq<nat>, pl: seq<string>, k: nat, before: seq<string>, chain: seq<string>)
    requires |lv| == |pl| && 0 < k <= |lv| && IsLeaf(lv, k - 1)
    requires Emitted(lv, pl, k - 1) == before && ChainAt(lv, pl, k - 1) == chain
    ensures Emitted(lv, pl, k) == before + [Join(chain)]
  {
  }

  /** A line with children adds nothing. */
  lemma EmitInner(lv: seq<nat>, pl: seq<string>, k: nat, before: seq<string>)
    requires |lv| == |pl| && 0 < k <= |lv| && !IsLeaf(lv, k - 1)
    requires Emitted(lv, pl, k - 1) == before
    ensures Emitted(lv, pl, k) == before
  {
  }

  /** The tree of the docstring, levels 1 2 3 2 1: the chains at its leaves. */
  lemma DocstringChains(lv: seq<nat>, pl: seq<string>)
    requires |lv| == |pl| == 5
    requires lv[0] == 1 && lv[1] == 2 && lv[2] == 3 && lv[3] == 2 && lv[4] == 1
    ensures ChainAt(lv, pl, 2) == [pl[0], pl[1], pl[2]]
    ensures ChainAt(lv, pl, 3) == [pl[0], pl[3]]
    ensures ChainAt(lv, pl, 4) == [pl[4]]
    ensures ChainBefore(lv, pl, 4) == []
  {
    Rise(lv, pl, 1);
    assert ChainBefore(lv, pl, 1) == [pl[0]];
    Rise(lv, pl, 2);
    assert ChainBefore(lv, pl, 2) == [pl[0], pl[1]];
    Fall(lv, pl, 3, 1);
    assert ChainBefore(lv, pl, 3) == [pl[0]];
    Fall(lv, pl, 4, 0);
  }

  /** The commands of the docstring's tree, over any payloads. */
  lemma DocstringTree(lv: seq<nat>, pl: seq<string>)
    requires |lv| == |pl| == 5
    requires lv[0] == 1 && lv[1] == 2 && lv[2] == 3 && lv[3] == 2 && lv[4] == 1
    ensures Flatten(lv, pl) == [Join([pl[0], pl[1], pl[2]]), Join([pl[0], pl[3]]), Join([pl[4]])]
  {
    DocstringChains(lv, pl);
    var e: seq<string> := [];
    EmitInner(lv, pl, 1, e);
    EmitInner(lv, pl, 2, e);
    EmitLeaf(lv, pl, 3, e, [pl[0], pl[1], pl[2]]);
    e := e + [Join([pl[0], pl[1], pl[2]])];
    EmitLeaf(lv, pl, 4, e, [pl[0], pl[3]]);
    e := e + [Join([pl[0], pl[3]])];
    EmitLeaf(lv, pl, 5, e, [pl[4]]);
  }

  /** The docstring outline's lines read as levels 1 2 3 2 1 and the words. */
  lemma DocstringLines(lines: seq<string>, one: string, two: string, three: string, four: string, five: string)
    requires Word(one) && Word(two) && Word(three) && Word(four) && Word(five)
    requires lines == ["* " + one, "** " + two, "*** " + three, "** " + four, "* " + five]
    ensures Levels(lines)[0] == 1 && Payloads(lines)[0] == one
    ensures Levels(lines)[1] == 2 && Payloads(lines)[1] == two
    ensures Levels(lines)[2] == 3 && Payloads(lines)[2] == three
    ensures Levels(lines)[3] == 2 && Payloads(lines)[3] == four
    ensures Levels(lines)[4] == 1 && Payloads(lines)[4] == five
  {
    Item1(one);
    LevelsAt(lines, 0);
    PayloadsAt(lines, 0);
    Item2(two);
    LevelsAt(lines, 1);
    PayloadsAt(lines, 1);
    Item3(three);
    LevelsAt(lines, 2);
    PayloadsAt(lines, 2);
    Item2(four);
    LevelsAt(lines, 3);
    PayloadsAt(lines, 3);
    Item1(five);
    LevelsAt(lines, 4);
    PayloadsAt(lines, 4);
  }

  /** The docstring outline, for any five payload words. */
  lemma DocstringOutline(one: string, two: string, three: string, four: string, five: string)
    requires Word(one) && Word(two) && Word(three) && Word(four) && Word(five)
    ensures CommandsOf(["* " + one, "** " + two, "*** " + three, "** " + four, "* " + five])
      == [one + " " + two + " " + three, one + " " + four, five]
  {
    var lines := ["* " + one, "** " + two, "*** " + three, "** " + four, "* " + five];
    DocstringLines(lines, one, two, three, four, five);
    DocstringTree(Levels(lines), Payloads(lines));
    Join3(one, two, three);
    Join2(one, four);
  }

  /** The docstring example with its own words. */
  lemma DocstringExample()
    ensures CommandsOf(["* One", "** Two", "*** Three", "** Four", "* Five"])
      == ["One Two Three", "One Four", "Five"]
  {
    assert "* " + "One" == "* One";
    assert "** " + "Two" == "** Two";
    assert "*** " + "Three" == "*** Three";
    assert "** " + "Four" == "** Four";
    assert "* " + "Five" == "* Five";
    assert "One" + " " + "Two" + " " + "Three" == "One Two Three";
    assert "One" + " " + "Four" == "One Four";
    DocstringOutline("One", "Two", "Three", "Four", "Five");
  }

  /** The test outline's first block, lines 0 to 4, levels 1 2 3 3 2: the
      chains at its leaves, and an empty chain when the next block starts. */
  lemma TestChainsFront(lv: seq<nat>, pl: seq<string>)
    requires |lv| == |pl| == 11
    requires lv[0] == 1 && lv[1] == 2 && lv[2] == 3 && lv[3] == 3 && lv[4] == 2
    requires lv[5] == 1 && lv[6] == 2 && lv[7] == 3 && lv[8] == 3 && lv[9] == 1 && lv[10] == 1
    ensures ChainAt(lv, pl, 2) == [pl[0], pl[1], pl[2]]
    ensures ChainAt(lv, pl, 3) == [pl[0], pl[1], pl[3]]
    ensures ChainAt(lv, pl, 4) == [pl[0], pl[4]]
    ensures ChainBefore(lv, pl, 5) == []
  {
    Rise(lv, pl, 1);
    assert ChainBefore(lv, pl, 1) == [pl[0]];
    Rise(lv, pl, 2);
    assert ChainBefore(lv, pl, 2) == [pl[0], pl[1]];
    Fall(lv, pl, 3, 2);
    assert ChainBefore(lv, pl, 3) == [pl[0], pl[1]];
    Fall(lv, pl, 4, 1);
    assert ChainBefore(lv, pl, 4) == [pl[0]];
    Fall(lv, pl, 5, 0);
  }

  /** The test outline's remaining blocks, lines 5 to 10, levels 1 2 3 3 1 1,
      entered with an empty chain. */
  lemma TestChainsBack(lv: seq<nat>, pl: seq<string>)
    requires |lv| == |pl| == 11
    requires lv[0] == 1 && lv[1] == 2 && lv[2] == 3 && lv[3] == 3 && lv[4] == 2
    requires lv[5] == 1 && lv[6] == 2 && lv[7] == 3 && lv[8] == 3 && lv[9] == 1 && lv[10] == 1
    requires ChainBefore(lv, pl, 5) == []
    ensures ChainAt(lv, pl, 7) == [pl[5], pl[6], pl[7]]
    ensures ChainAt(lv, pl, 8) == [pl[5], pl[6], pl[8]]
    ensures ChainAt(lv, pl, 9) == [pl[9]]
    ensures ChainAt(lv, pl, 10) == [pl[10]]
  {
    Rise(lv, pl, 6);
    assert ChainBefore(lv, pl, 6) == [pl[5]];
    Rise(lv, pl, 7);
    assert ChainBefore(lv, pl, 7) == [pl[5], pl[6]];
    Fall(lv, pl, 8, 2);
    assert ChainBefore(lv, pl, 8) == [pl[5], pl[6]];
    Fall(lv, pl, 9, 0);
    assert ChainBefore(lv, pl, 9) == [];
    Fall(lv, pl, 10, 0);
  }

  /** The commands of the test outline's first block. */
  lemma TestEmitsFront(lv: seq<nat>, pl: seq<string>)
    requires |lv| == |pl| == 11
    requires lv[0] == 1 && lv[1] == 2 && lv[2] == 3 && lv[3] == 3 && lv[4] == 2
    requires lv[5] == 1 && lv[6] == 2 && lv[7] == 3 && lv[8] == 3 && lv[9] == 1 && lv[10] == 1
    ensures Emitted(lv, pl, 5) == [Join([pl[0], pl[1], pl[2]]), Join([pl[0], pl[1], pl[3]]), Join([pl[0], pl[4]])]
  {
    TestChainsFront(lv, pl);
    var e: seq<string> := [];
    EmitInner(lv, pl, 1, e);
    EmitInner(lv, pl, 2, e);
    EmitLeaf(lv, pl, 3, e, [pl[0], pl[1], pl[2]]);
    e := e + [Join([pl[0], pl[1], pl[2]])];
    EmitLeaf(lv, pl, 4, e, [pl[0], pl[1], pl[3]]);
    e := e + [Join([pl[0], pl[1], pl[3]])];
    EmitLeaf(lv, pl, 5, e, [pl[0], pl[4]]);
  }

  /** The commands of the whole test outline's tree, over any payloads. */
  lemma TestTree(lv: seq<nat>, pl: seq<string>)
    requires |lv| == |pl| == 11
    requires lv[0] == 1 && lv[1] == 2 && lv[2] == 3 && lv[3] == 3 && lv[4] == 2
    requires lv[5] == 1 && lv[6] == 2 && lv[7] == 3 && lv[8] == 3 && lv[9] == 1 && lv[10] == 1
    ensures Flatten(lv, pl) == [Join([pl[0], pl[1], pl[2]]), Join([pl[0], pl[1], pl[3]]), Join([pl[0], pl[4]]), Join([pl[5],
      pl[6], pl[7]]), Join([pl[5], pl[6], pl[8]]), Join([pl[9]]), Join([pl[10]])]
  {
    TestEmitsFront(lv, pl);
    TestChainsFront(lv, pl);
    TestChainsBack(lv, pl);
    var e: seq<string> := [Join([pl[0], pl[1], pl[2]]), Join([pl[0], pl[1], pl[3]]), Join([pl[0], pl[4]])];
    EmitInner(lv, pl, 6, e);
    EmitInner(lv, pl, 7, e);
    EmitLeaf(lv, pl, 8, e, [pl[5], pl[6], pl[7]]);
    e := e + [Join([pl[5], pl[6], pl[7]])];
    EmitLeaf(lv, pl, 9, e, [pl[5], pl[6], pl[8]]);
    e := e + [Join([pl[5], pl[6], pl[8]])];
    EmitLeaf(lv, pl, 10, e, [pl[9]]);
    e := e + [Join([pl[9]])];
    EmitLeaf(lv, pl, 11, e, [pl[10]]);
  }

  /** The first six lines of the test outline, read as levels and words. */
  lemma TestLinesHead(lines: seq<string>, w: seq<string>)
    requires |lines| == |w| == 11 && forall k :: 0 <= k < 11 ==> Word(w[k])
    requires lines[0] == "* " + w[0]
    requires lines[1] == " ** " + w[1]
    requires lines[2] == "*** " + w[2]
    requires lines[3] == "*** " + w[3]
    requires lines[4] == "** " + w[4]
    requires lines[5] == "* " + w[5]
    ensures Levels(lines)[0] == 1 && Payloads(lines)[0] == w[0]
    ensures Levels(lines)[1] == 2 && Payloads(lines)[1] == w[1]
    ensures Levels(lines)[2] == 3 && Payloads(lines)[2] == w[2]
    ensures Levels(lines)[3] == 3 && Payloads(lines)[3] == w[3]
    ensures Levels(lines)[4] == 2 && Payloads(lines)[4] == w[4]
    ensures Levels(lines)[5] == 1 && Payloads(lines)[5] == w[5]
  {
    Item1(w[0]);
    LevelsAt(lines, 0);
    PayloadsAt(lines, 0);
    Item2Indented(w[1]);
    LevelsAt(lines, 1);
    PayloadsAt(lines, 1);
    Item3(w[2]);
    LevelsAt(lines, 2);
    PayloadsAt(lines, 2);
    Item3(w[3]);
    LevelsAt(lines, 3);
    PayloadsAt(lines, 3);
    Item2(w[4]);
    LevelsAt(lines, 4);
    PayloadsAt(lines, 4);
    Item1(w[5]);
    LevelsAt(lines, 5);
    PayloadsAt(lines, 5);
  }

  /** The last five lines of the test outline, read as levels and words. */
  lemma TestLinesTail(lines: seq<string>, w: seq<string>)
    requires |lines| == |w| == 11 && forall k :: 0 <= k < 11 ==> Word(w[k])
    requires lines[6] == "** " + w[6]
    requires lines[7] == "*** " + w[7]
    requires lines[8] == "*** " + w[8]
    requires lines[9] == "* " + w[9]
    requires lines[10] == "* " + w[10]
    ensures Levels(lines)[6] == 2 && Payloads(lines)[6] == w[6]
    ensures Levels(lines)[7] == 3 && Payloads(lines)[7] == w[7]
    ensures Levels(lines)[8] == 3 && Payloads(lines)[8] == w[8]
    ensures Levels(lines)[9] == 1 && Payloads(lines)[9] == w[9]
    ensures Levels(lines)[10] == 1 && Payloads(lines)[10] == w[10]
  {
    Item2(w[6]);
    LevelsAt(lines, 6);
    PayloadsAt(lines, 6);
    Item3(w[7]);
    LevelsAt(lines, 7);
    PayloadsAt(lines, 7);
    Item3(w[8]);
    LevelsAt(lines, 8);
    PayloadsAt(lines, 8);
    Item1(w[9]);
    LevelsAt(lines, 9);
    PayloadsAt(lines, 9);
    Item1(w[10]);
    LevelsAt(lines, 10);
    PayloadsAt(lines, 10);
  }

  /** The test outline, for any eleven payload words. */
  lemma TestOutline(w: seq<string>)
    requires |w| == 11 && forall k :: 0 <= k < 11 ==> Word(w[k])
    ensures CommandsOf(["* " + w[0], " ** " + w[1], "*** " + w[2], "*** " + w[3], "** " + w[4], "* " + w[5],
      "** " + w[6], "*** " + w[7], "*** " + w[8], "* " + w[9], "* " + w[10]])
      == [w[0] + " " + w[1] + " " + w[2], w[0] + " " + w[1] + " " + w[3], w[0] + " " + w[4],
          w[5] + " " + w[6] + " " + w[7], w[5] + " " + w[6] + " " + w[8], w[9], w[10]]
  {
    var lines := ["* " + w[0], " ** " + w[1], "*** " + w[2], "*** " + w[3], "** " + w[4], "* " + w[5],
      "** " + w[6], "*** " + w[7], "*** " + w[8], "* " + w[9], "* " + w[10]];
    TestLinesHead(lines, w);
    TestLinesTail(lines, w);
    TestTree(Levels(lines), Payloads(lines));
    Join3(w[0], w[1], w[2]);
    Join3(w[0], w[1], w[3]);
    Join2(w[0], w[4]);
    Join3(w[5], w[6], w[7]);
    Join3(w[5], w[6], w[8]);
  }

  /** The test's words spelled into the test's lines. */
  lemma TestLineLiterals(w: seq<string>)
    requires w == ["1", "1.1", "1.1.1", "1.1.2", "1.2", "2", "2.1", "2.1.1", "2.1.2", "3", "4"]
    ensures ["* " + w[0], " ** " + w[1], "*** " + w[2], "*** " + w[3], "** " + w[4], "* " + w[5],
      "** " + w[6], "*** " + w[7], "*** " + w[8], "* " + w[9], "* " + w[10]]
      == ["* 1", " ** 1.1", "*** 1.1.1", "*** 1.1.2", "** 1.2", "* 2", "** 2.1", "*** 2.1.1",
      "*** 2.1.2", "* 3", "* 4"]
  {
    assert "* " + w[0] == "* 1";
    assert " ** " + w[1] == " ** 1.1";
    assert "*** " + w[2] == "*** 1.1.1";
    assert "*** " + w[3] == "*** 1.1.2";
    assert "** " + w[4] == "** 1.2";
    assert "* " + w[5] == "* 2";
    assert "** " + w[6] == "** 2.1";
    assert "*** " + w[7] == "*** 2.1.1";
    assert "*** " + w[8] == "*** 2.1.2";
    assert "* " + w[9] == "* 3";
    assert "* " + w[10] == "* 4";
  }

  /** The test's words joined into the test's commands. */
  lemma TestCommandLiterals(w: seq<string>)
    requires w == ["1", "1.1", "1.1.1", "1.1.2", "1.2", "2", "2.1", "2.1.1", "2.1.2", "3", "4"]
    ensures [w[0] + " " + w[1] + " " + w[2], w[0] + " " + w[1] + " " + w[3], w[0] + " " + w[4],
          w[5] + " " + w[6] + " " + w[7], w[5] + " " + w[6] + " " + w[8], w[9], w[10]]
      == ["1 1.1 1.1.1", "1 1.1 1.1.2", "1 1.2", "2 2.1 2.1.1", "2 2.1 2.1.2", "3", "4"]
  {
    assert w[0] + " " + w[1] + " " + w[2] == "1 1.1 1.1.1";
    assert w[0] + " " + w[1] + " " + w[3] == "1 1.1 1.1.2";
    assert w[0] + " " + w[4] == "1 1.2";
    assert w[5] + " " + w[6] + " " + w[7] == "2 2.1 2.1.1";
    assert w[5] + " " + w[6] + " " + w[8] == "2 2.1 2.1.2";
  }

  /** The outline of the test suite with its own words. */
  lemma TestExample()
    ensures CommandsOf(["* 1", " ** 1.1", "*** 1.1.1", "*** 1.1.2", "** 1.2", "* 2", "** 2.1", "*** 2.1.1",
      "*** 2.1.2", "* 3", "* 4"])
      == ["1 1.1 1.1.1", "1 1.1 1.1.2", "1 1.2", "2 2.1 2.1.1", "2 2.1 2.1.2", "3", "4"]
  {
    var w := ["1", "1.1", "1.1.1", "1.1.2", "1.2", "2", "2.1", "2.1.1", "2.1.2", "3", "4"];
    TestLineLiterals(w);
    TestCommandLiterals(w);
    TestOutline(w);
  }

  /** A line that starts with asterisks is kept at the head of its suffix. */
  lemma FilterKeep(ls: seq<string>, k: nat)
    requires k < |ls| && StartsWithAsterisk(ls[k])
    ensures AsteriskLines(ls[k..]) == [ls[k]] + AsteriskLines(ls[k + 1..])
  {
    assert ls[k..][1..] == ls[k + 1..];
  }

  /** A line that does not start with asterisks is dropped from its suffix. */
  lemma FilterDrop(ls: seq<string>, k: nat)
    requires k < |ls| && !StartsWithAsterisk(ls[k])
    ensures AsteriskLines(ls[k..]) == AsteriskLines(ls[k + 1..])
  {
    assert ls[k..][1..] == ls[k + 1..];
  }

  /** Filtering nine lines, of which the first, third, fourth, seventh and
      eighth start with asterisks. */
  lemma FilterShape(ls: seq<string>)
    requires |ls| == 9
    requires StartsWithAsterisk(ls[0]) && !StartsWithAsterisk(ls[1]) && StartsWithAsterisk(ls[2])
    requires StartsWithAsterisk(ls[3]) && !StartsWithAsterisk(ls[4]) && !StartsWithAsterisk(ls[5])
    requires StartsWithAsterisk(ls[6]) && StartsWithAsterisk(ls[7]) && !StartsWithAsterisk(ls[8])
    ensures AsteriskLines(ls) == [ls[0], ls[2], ls[3], ls[6], ls[7]]
  {
    assert ls[9..] == [];
    FilterDrop(ls, 8);
    FilterKeep(ls, 7);
    FilterKeep(ls, 6);
    FilterDrop(ls, 5);
    FilterDrop(ls, 4);
    FilterKeep(ls, 3);
    FilterKeep(ls, 2);
    FilterDrop(ls, 1);
    FilterKeep(ls, 0);
    assert ls[0..] == ls;
  }

  /** The lines the filter test expects to survive, among lines that do not
      start with asterisks. */
  lemma FilterExample()
    ensures AsteriskLines(["* Item 1", "# This is a comment", "** Item 1.1", "*** Item 1.1.1",
      "", "! This is a comment too", "*Item 2", " * Item 3", "Item 4 *"])
      == ["* Item 1", "** Item 1.1", "*** Item 1.1.1", "*Item 2", " * Item 3"]
  {
    assert StartsWithAsterisk("* Item 1");
    assert !StartsWithAsterisk("# This is a comment");
    assert StartsWithAsterisk("** Item 1.1");
    assert StartsWithAsterisk("*** Item 1.1.1");
    assert !StartsWithAsterisk("");
    assert !StartsWithAsterisk("! This is a comment too");
    assert StartsWithAsterisk("*Item 2");
    assert StartsWithAsterisk(" * Item 3");
    assert !StartsWithAsterisk("Item 4 *");
    FilterShape(["* Item 1", "# This is a comment", "** Item 1.1", "*** Item 1.1.1",
      "", "! This is a comment too", "*Item 2", " * Item 3", "Item 4 *"]);
  }

  /** An outline that skips a level is not a tree the walk was written for:
      after `* a`, `*** b`, the level-one item `* c` is still joined to `a`. */
  lemma SkippedLevel(lv: seq<nat>, pl: seq<string>)
    requires |lv| == |pl| == 3 && lv[0] == 1 && lv[1] == 3 && lv[2] == 1
    ensures Flatten(lv, pl) == [Join([pl[0], pl[1]]), Join([pl[0], pl[2]])]
  {
    assert ChainBefore(lv, pl, 1) == [pl[0]];
    assert ChainAt(lv, pl, 1) == [pl[0], pl[1]];
    assert ChainBefore(lv, pl, 2) == [pl[0]];
    assert Emitted(lv, pl, 1) == [];
    assert Emitted(lv, pl, 2) == [Join([pl[0], pl[1]])];
  }
}
