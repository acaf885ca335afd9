/** The selection step of `read_asterisk_lines_from_file`: of the lines of a
    file, keep those that start with asterisks (up to initial whitespace). */
module LineFilter {
  import opened AsteriskRegex

  /** `list(filter(start_with_asterisk, lines))`. */
  function AsteriskLines(lines: seq<string>): (kept: seq<string>)
    ensures |kept| <= |lines|
  {
    if |lines| == 0 then []
    else (if StartsWithAsterisk(lines[0]) then [lines[0]] else []) + AsteriskLines(lines[1..])
  }

  /** The kept lines are exactly the lines that start with asterisks. */
  lemma {:induction false} KeptExactly(lines: seq<string>)
    ensures forall k :: 0 <= k < |AsteriskLines(lines)| ==> StartsWithAsterisk(AsteriskLines(lines)[k])
    ensures forall x :: x in AsteriskLines(lines) <==> x in lines && StartsWithAsterisk(x)
    decreases |lines|
  {
    if |lines| > 0 {
      KeptExactly(lines[1..]);
      assert lines == [lines[0]] + lines[1..];
    }
  }

  /** Filtering distributes over concatenation: the kept lines come out in
      their original order and unchanged. */
  lemma {:induction false} AsteriskLinesAppend(a: seq<string>, b: seq<string>)
    ensures AsteriskLines(a + b) == AsteriskLines(a) + AsteriskLines(b)
    decreases |a|
  {
    if |a| == 0 {
      assert a + b == b;
    } else {
      assert (a + b)[0] == a[0];
      assert (a + b)[1..] == a[1..] + b;
      AsteriskLinesAppend(a[1..], b);
      var head := if StartsWithAsterisk(a[0]) then [a[0]] else [];
      assert AsteriskLines(a + b) == head + AsteriskLines(a[1..] + b);
      assert AsteriskLines(a) == head + AsteriskLines(a[1..]);
    }
  }

  /** One line is kept exactly when it matches the regex. */
  lemma SingleLine(x: string)
    ensures AsteriskLines([x]) == if RegexMatches(x) then [x] else []
  {
    StartsWithAsteriskIffRegexMatches(x);
    assert [x][1..] == [];
  }

  /** Lines that all start with asterisks pass through untouched. */
  lemma {:induction false} AllKept(lines: seq<string>)
    requires forall k :: 0 <= k < |lines| ==> StartsWithAsterisk(lines[k])
    ensures AsteriskLines(lines) == lines
    decreases |lines|
  {
    if |lines| > 0 {
      AllKept(lines[1..]);
    }
  }

  /** Filtering twice keeps the same lines as filtering once. */
  lemma Idempotent(lines: seq<string>)
    ensures AsteriskLines(AsteriskLines(lines)) == AsteriskLines(lines)
  {
    KeptExactly(lines);
    AllKept(AsteriskLines(lines));
  }

  /** Every kept line is a legal outline item: its level is at least one. */
  lemma KeptLinesHaveLevel(lines: seq<string>)
    ensures forall k :: 0 <= k < |AsteriskLines(lines)| ==> Level(AsteriskLines(lines)[k]) >= 1
  {
    var kept := AsteriskLines(lines);
    KeptExactly(lines);
    forall k | 0 <= k < |kept| ensures Level(kept[k]) >= 1 {
      LevelPositive(kept[k]);
    }
  }
}
