/** `prepare_commands`: turn the asterisk lines of an outline into the list of
    full commands, one per leaf, each the space-joined chain of payloads open
    at that leaf. Levels and payloads are kept in two parallel sequences, as
    the source keeps them in two parallel lists. */
module Commands {
  import opened PyBuiltins
  import opened AsteriskRegex

  /** `num_asterisks`: the level of every line. */
  function Levels(lines: seq<string>): (lv: seq<nat>)
    ensures |lv| == |lines|
  {
    if |lines| == 0 then [] else [Level(lines[0])] + Levels(lines[1..])
  }

  /** `list_no_astr`: the payload of every line. */
  function Payloads(lines: seq<string>): (pl: seq<string>)
    ensures |pl| == |lines|
  {
    if |lines| == 0 then [] else [Payload(lines[0])] + Payloads(lines[1..])
  }

  /** Entry `i` of `Levels(lines)` is the level of line `i`. */
  lemma {:induction false} LevelsAt(lines: seq<string>, i: nat)
    requires i < |lines|
    ensures Levels(lines)[i] == Level(lines[i])
  {
    if i > 0 {
      LevelsAt(lines[1..], i - 1);
    }
  }

  /** Entry `i` of `Payloads(lines)` is the payload of line `i`. */
  lemma {:induction false} PayloadsAt(lines: seq<string>, i: nat)
    requires i < |lines|
    ensures Payloads(lines)[i] == Payload(lines[i])
  {
    if i > 0 {
      PayloadsAt(lines[1..], i - 1);
    }
  }

  /** Line `i` is a leaf: it is the last line, or the next one is not deeper. */
  predicate IsLeaf(lv: seq<nat>, i: nat)
    requires i < |lv|
  {
    i == |lv| - 1 || lv[i + 1] <= lv[i]
  }

  /** `current_command` at the start of iteration `i`. After line `i - 1` was
      appended, the chain is kept when the next line goes deeper and is
      otherwise cut to `chain[:len(chain) + diff - 1]` with Python's slice. */
  function ChainBefore(lv: seq<nat>, pl: seq<string>, i: nat): seq<string>
    requires |lv| == |pl| && i < |lv|
    decreases i
  {
    if i == 0 then []
    else
      var c := ChainBefore(lv, pl, i - 1) + [pl[i - 1]];
      var diff := lv[i] as int - lv[i - 1] as int;
      if diff > 0 then c else SlicePrefix(c, |c| + diff - 1)
  }

  /** `current_command` once line `i`'s payload has been appended. */
  function ChainAt(lv: seq<nat>, pl: seq<string>, i: nat): seq<string>
    requires |lv| == |pl| && i < |lv|
  {
    ChainBefore(lv, pl, i) + [pl[i]]
  }

  /** `return_list` after the first `k` iterations. */
  function Emitted(lv: seq<nat>, pl: seq<string>, k: nat): seq<string>
    requires |lv| == |pl| && k <= |lv|
  {
    if k == 0 then []
    else Emitted(lv, pl, k - 1) + (if IsLeaf(lv, k - 1) then [Join(ChainAt(lv, pl, k - 1))] else [])
  }

  /** The flattened outline: `return_list` after the whole walk. */
  function Flatten(lv: seq<nat>, pl: seq<string>): seq<string>
    requires |lv| == |pl|
  {
    Emitted(lv, pl, |lv|)
  }

  /** The value `prepare_commands(lines)` returns. */
  function CommandsOf(lines: seq<string>): seq<string>
  {
    Flatten(Levels(lines), Payloads(lines))
  }

  /** `prepare_commands`, step by step as the source runs it. */
  method PrepareCommands(lines: seq<string>) returns (returnList: seq<string>)
    ensures returnList == CommandsOf(lines)
  {
    var numAsterisks := Levels(lines);
    var numElements := |numAsterisks|;
    var listNoAstr := Payloads(lines);
    returnList := [];
    var currentCommand: seq<string> := [];
    for index := 0 to |listNoAstr|
      invariant index < numElements ==> currentCommand == ChainBefore(numAsterisks, listNoAstr, index)
      invariant returnList == Emitted(numAsterisks, listNoAstr, index)
    {
      currentCommand := currentCommand + [listNoAstr[index]];
      assert currentCommand == ChainAt(numAsterisks, listNoAstr, index);
      if index == numElements - 1 {
        returnList := returnList + [Join(currentCommand)];
        assert returnList == Emitted(numAsterisks, listNoAstr, index + 1);
      } else {
        var diffLevels := numAsterisks[index + 1] as int - numAsterisks[index] as int;
        if diffLevels <= 0 {
          returnList := returnList + [Join(currentCommand)];
          currentCommand := SlicePrefix(currentCommand, |currentCommand| + diffLevels - 1);
        }
        assert returnList == Emitted(numAsterisks, listNoAstr, index + 1);
        assert currentCommand == ChainBefore(numAsterisks, listNoAstr, index + 1);
      }
    }
  }

  /** The indices below `k` that are leaves, in increasing order. */
  function LeafIndices(lv: seq<nat>, k: nat): (ix: seq<nat>)
    requires k <= |lv|
    ensures forall m :: 0 <= m < |ix| ==> ix[m] < k && IsLeaf(lv, ix[m])
    ensures forall j :: 0 <= j < k && IsLeaf(lv, j) ==> j in ix
    ensures forall m, n :: 0 <= m < n < |ix| ==> ix[m] < ix[n]
  {
    if k == 0 then []
    else LeafIndices(lv, k - 1) + (if IsLeaf(lv, k - 1) then [k - 1] else [])
  }

  /** Leaf rule: exactly one command per leaf, in order, each the joined
      chain open at that leaf. */
  lemma {:induction false} LeafRule(lv: seq<nat>, pl: seq<string>, k: nat)
    requires |lv| == |pl| && k <= |lv|
    ensures |Emitted(lv, pl, k)| == |LeafIndices(lv, k)|
    ensures forall m :: 0 <= m < |Emitted(lv, pl, k)| ==>
      Emitted(lv, pl, k)[m] == Join(ChainAt(lv, pl, LeafIndices(lv, k)[m]))
  {
    if k > 0 {
      LeafRule(lv, pl, k - 1);
    }
  }

  /** An empty outline yields no command; any other yields at least one,
      since its last line is always a leaf. */
  lemma EmptyIffNoCommands(lv: seq<nat>, pl: seq<string>)
    requires |lv| == |pl|
    ensures |Flatten(lv, pl)| == 0 <==> |lv| == 0
  {
    LeafRule(lv, pl, |lv|);
    if |lv| > 0 {
      assert |lv| - 1 in LeafIndices(lv, |lv|);
    }
  }

  /** The command emitted at a leaf ends with that line's payload, after the
      joined chain of its open ancestors and a space, if there are any. */
  lemma EmittedEndsWithPayload(lv: seq<nat>, pl: seq<string>, i: nat)
    requires |lv| == |pl| && i < |lv|
    ensures var cmd := Join(ChainAt(lv, pl, i));
      if ChainBefore(lv, pl, i) == [] then cmd == pl[i]
      else cmd == Join(ChainBefore(lv, pl, i)) + " " + pl[i]
  {
    JoinSnoc(ChainBefore(lv, pl, i), pl[i]);
  }

  /** Chain update between lines `i` and `i + 1`: a deeper next line keeps the
      chain with line `i` on top and emits nothing; otherwise a command is
      emitted and the chain is cut to a prefix whose length follows Python's
      rule for `chain[:stop]` with `stop = len(chain) + diff - 1`. */
  lemma ChainUpdate(lv: seq<nat>, pl: seq<string>, i: nat)
    requires |lv| == |pl| && i + 1 < |lv|
    ensures var c := ChainAt(lv, pl, i);
      var diff := lv[i + 1] as int - lv[i] as int;
      var stop := |c| + diff - 1;
      var next := ChainBefore(lv, pl, i + 1);
      && (diff > 0 ==> !IsLeaf(lv, i) && next == c && |next| == |ChainBefore(lv, pl, i)| + 1)
      && (diff <= 0 ==>
            IsLeaf(lv, i) && next == c[..|next|]
            && |next| == (if 0 <= stop then stop else if 0 <= |c| + stop then |c| + stop else 0))
  {
  }

  /** The chain never holds more entries than lines already read. */
  lemma {:induction false} ChainBounded(lv: seq<nat>, pl: seq<string>, i: nat)
    requires |lv| == |pl| && i < |lv|
    ensures |ChainBefore(lv, pl, i)| <= i
  {
    if i > 0 {
      ChainBounded(lv, pl, i - 1);
    }
  }

  /** An outline as the asterisk syntax intends it: it starts at level 1,
      every level is at least 1, and no line is more than one level deeper
      than the line before it. */
  predicate WellFormed(lv: seq<nat>)
  {
    && (|lv| > 0 ==> lv[0] == 1)
    && (forall i :: 0 <= i < |lv| ==> 1 <= lv[i])
    && (forall i :: 0 < i < |lv| ==> lv[i] <= lv[i - 1] + 1)
  }

  /** The ancestor of line `i` at level `L`: the most recent line at or
      before `i` whose level is `L` (line 0 when there is none). */
  function Ancestor(lv: seq<nat>, i: nat, L: nat): (a: nat)
    requires i < |lv|
    ensures a <= i
    ensures forall j :: a < j <= i ==> lv[j] != L
    ensures lv[a] != L ==> forall j :: 0 <= j <= i ==> lv[j] != L
  {
    if lv[i] == L || i == 0 then i else Ancestor(lv, i - 1, L)
  }

  /** The payloads on the path from the root of the outline tree down to
      line `i`, one per level. */
  function RootPath(lv: seq<nat>, pl: seq<string>, i: nat): (p: seq<string>)
    requires |lv| == |pl| && i < |lv|
  {
    seq(lv[i], d requires 0 <= d < lv[i] => pl[Ancestor(lv, i, d + 1)])
  }

  /** Well-formed invariant: at the start of iteration `i` the chain holds
      `level[i] - 1` entries, and once line `i` is appended it is exactly the
      root-to-line path, each entry the ancestor at its level, with every
      line between an ancestor and line `i` strictly deeper than it. */
  lemma {:induction false} WellFormedChain(lv: seq<nat>, pl: seq<string>, i: nat)
    requires |lv| == |pl| && i < |lv| && WellFormed(lv)
    ensures |ChainBefore(lv, pl, i)| == lv[i] - 1
    ensures ChainAt(lv, pl, i) == RootPath(lv, pl, i)
    ensures forall L :: 1 <= L <= lv[i] ==>
      lv[Ancestor(lv, i, L)] == L && forall j :: Ancestor(lv, i, L) < j <= i ==> lv[j] > L
    decreases i
  {
    if i > 0 {
      WellFormedChain(lv, pl, i - 1);
      var prev := ChainAt(lv, pl, i - 1);
      assert ChainBefore(lv, pl, i) == prev[..lv[i] - 1];
      forall L | 1 <= L < lv[i]
        ensures Ancestor(lv, i, L) == Ancestor(lv, i - 1, L)
      {
      }
      forall d | 0 <= d < lv[i]
        ensures ChainAt(lv, pl, i)[d] == RootPath(lv, pl, i)[d]
      {
        if d < lv[i] - 1 {
          assert ChainAt(lv, pl, i)[d] == prev[d];
        }
      }
    }
  }

  /** For a well-formed outline every command is the joined root-to-leaf
      path of its leaf, with as many components as the leaf's level. */
  lemma WellFormedCommands(lv: seq<nat>, pl: seq<string>)
    requires |lv| == |pl| && WellFormed(lv)
    ensures |Flatten(lv, pl)| == |LeafIndices(lv, |lv|)|
    ensures forall m :: 0 <= m < |Flatten(lv, pl)| ==>
      var leaf := LeafIndices(lv, |lv|)[m];
      |RootPath(lv, pl, leaf)| == lv[leaf] && Flatten(lv, pl)[m] == Join(RootPath(lv, pl, leaf))
  {
    LeafRule(lv, pl, |lv|);
    var ix := LeafIndices(lv, |lv|);
    forall m | 0 <= m < |ix| ensures Flatten(lv, pl)[m] == Join(RootPath(lv, pl, ix[m])) {
      WellFormedChain(lv, pl, ix[m]);
    }
  }

  /** In a flat outline whose lines are all at level 1 the chain is empty
      before every line. */
  lemma {:induction false} FlatChain(lv: seq<nat>, pl: seq<string>, k: nat)
    requires |lv| == |pl| && k < |lv|
    requires forall i :: 0 <= i < |lv| ==> lv[i] == 1
    ensures ChainBefore(lv, pl, k) == []
    decreases k
  {
    if k > 0 {
      FlatChain(lv, pl, k - 1);
      var c := ChainBefore(lv, pl, k - 1) + [pl[k - 1]];
      assert c == [pl[k - 1]];
      assert lv[k] as int - lv[k - 1] as int == 0;
      assert |c| + (lv[k] as int - lv[k - 1] as int) - 1 == 0;
      assert ChainBefore(lv, pl, k) == SlicePrefix(c, 0);
    }
  }

  /** One line of a flat outline emits its own payload. */
  lemma FlatStep(lv: seq<nat>, pl: seq<string>, k: nat)
    requires |lv| == |pl| && 0 < k <= |lv| && lv[k - 1] == 1 && (k < |lv| ==> lv[k] == 1)
    requires Emitted(lv, pl, k - 1) == pl[..k - 1] && ChainBefore(lv, pl, k - 1) == []
    ensures Emitted(lv, pl, k) == pl[..k]
  {
    assert ChainAt(lv, pl, k - 1) == [pl[k - 1]];
    assert pl[..k] == pl[..k - 1] + [pl[k - 1]];
  }

  /** A flat outline whose lines are all at level 1 yields its payloads,
      unchanged and in order. */
  lemma {:induction false} FlatOutline(lv: seq<nat>, pl: seq<string>, k: nat)
    requires |lv| == |pl| && k <= |lv|
    requires forall i :: 0 <= i < |lv| ==> lv[i] == 1
    ensures Emitted(lv, pl, k) == pl[..k]
    decreases k
  {
    if k > 0 {
      FlatOutline(lv, pl, k - 1);
      FlatChain(lv, pl, k - 1);
      FlatStep(lv, pl, k);
    }
  }
}
