/** The line diff of two secret values: a table of longest-common-subsequence
    lengths, filled from the end, then a walk from the start. */
module LineDiff {
  type Lines = seq<string>

  datatype Kind = Same | Added | Removed

  datatype DiffLine = DiffLine(kind: Kind, text: string)

  // ---- Lines of a text ------------------------------------------------------

  /** The lines of a text: the pieces between newlines. */
  function Split(text: string): Lines {
    if text == [] then [""]
    else if text[0] == '\n' then [""] + Split(text[1..])
    else
      var rest := Split(text[1..]);
      [[text[0]] + rest[0]] + rest[1..]
  }

  function Join(lines: Lines): string
    requires lines != []
  {
    if |lines| == 1 then lines[0] else lines[0] + "\n" + Join(lines[1..])
  }

  lemma JoinAfterEmpty(lines: Lines)
    requires lines != []
    ensures Join([""] + lines) == "\n" + Join(lines)
  {
    assert ([""] + lines)[1..] == lines;
  }

  lemma JoinAfterChar(c: char, lines: Lines)
    requires lines != []
    ensures Join([[c] + lines[0]] + lines[1..]) == [c] + Join(lines)
  {
    var longer := [[c] + lines[0]] + lines[1..];
    assert longer[1..] == lines[1..];
    if |lines| > 1 {
      assert ([c] + lines[0]) + "\n" + Join(lines[1..]) == [c] + (lines[0] + "\n" + Join(lines[1..]));
    }
  }

  /** Splitting loses nothing, so equal lines mean equal texts. */
  lemma {:induction false} JoinInvertsSplit(text: string)
    ensures Split(text) != [] && Join(Split(text)) == text
  {
    if text != [] {
      JoinInvertsSplit(text[1..]);
      assert text == [text[0]] + text[1..];
      hide Join;
      if text[0] == '\n' {
        JoinAfterEmpty(Split(text[1..]));
      } else {
        JoinAfterChar(text[0], Split(text[1..]));
      }
    } else {
      assert Join([""]) == "";
    }
  }

  /** No line holds a newline; with JoinInvertsSplit there is no other such list. */
  lemma {:induction false} LinesHaveNoNewline(text: string)
    ensures forall line | line in Split(text) :: '\n' !in line
  {
    if text != [] {
      LinesHaveNoNewline(text[1..]);
      var rest := Split(text[1..]);
      assert rest[0] in rest && forall line | line in rest[1..] :: line in rest;
    }
  }

  lemma {:induction false} SplitInvertsJoin(lines: Lines)
    requires lines != [] && forall line | line in lines :: '\n' !in line
    ensures Split(Join(lines)) == lines
    decreases |lines|, |lines[0]|
  {
    var text := Join(lines);
    if lines[0] != [] {
      var c, less := lines[0][0], [lines[0][1..]] + lines[1..];
      assert lines[0] in lines && lines[0] == [c] + lines[0][1..] && c != '\n';
      assert less[0] == lines[0][1..] && forall line | line in lines[1..] :: line in lines;
      assert [[c] + less[0]] + less[1..] == lines;
      JoinAfterChar(c, less);
      assert text[1..] == Join(less);
      SplitInvertsJoin(less);
    } else if |lines| > 1 {
      assert lines == [""] + lines[1..];
      JoinAfterEmpty(lines[1..]);
      assert text[1..] == Join(lines[1..]);
      assert forall line | line in lines[1..] :: line in lines;
      SplitInvertsJoin(lines[1..]);
    } else {
      assert lines == [""];
    }
  }

  // ---- The longest common subsequence ----------------------------------------

  /** c can be had from a by leaving lines out. */
  predicate Subsequence(c: Lines, a: Lines) {
    c == [] || (a != [] && ((c[0] == a[0] && Subsequence(c[1..], a[1..])) || Subsequence(c, a[1..])))
  }

  function Max(x: nat, y: nat): nat {
    if x >= y then x else y
  }

  /** The number the table holds at (i, j). */
  function Lcs(a: Lines, b: Lines, i: nat, j: nat): nat
    requires i <= |a| && j <= |b|
    decreases |a| - i + |b| - j
  {
    if i == |a| || j == |b| then 0
    else if a[i] == b[j] then Lcs(a, b, i + 1, j + 1) + 1
    else Max(Lcs(a, b, i + 1, j), Lcs(a, b, i, j + 1))
  }

  lemma {:induction false} DropHeads(c: Lines, a: Lines)
    requires c != [] && Subsequence(c, a)
    ensures a != [] && Subsequence(c[1..], a[1..])
  {
    if !(c[0] == a[0] && Subsequence(c[1..], a[1..])) {
      DropHeads(c, a[1..]);
      Weaken(c[1..], a[1..]);
    }
  }

  lemma Weaken(c: Lines, a: Lines)
    requires a != [] && Subsequence(c, a[1..])
    ensures Subsequence(c, a)
  {
  }

  /** No common subsequence of the two rests is longer than the table entry. */
  lemma {:induction false} LcsIsAnUpperBound(c: Lines, a: Lines, b: Lines, i: nat, j: nat)
    requires i <= |a| && j <= |b| && Subsequence(c, a[i..]) && Subsequence(c, b[j..])
    ensures |c| <= Lcs(a, b, i, j)
    decreases |a| - i + |b| - j
  {
    if c != [] && i < |a| && j < |b| {
      assert a[i..][1..] == a[i + 1..] && b[j..][1..] == b[j + 1..];
      if a[i] == b[j] {
        DropHeads(c, a[i..]);
        DropHeads(c, b[j..]);
        LcsIsAnUpperBound(c[1..], a, b, i + 1, j + 1);
      } else if c[0] != a[i] {
        LcsIsAnUpperBound(c, a, b, i + 1, j);
      } else {
        LcsIsAnUpperBound(c, a, b, i, j + 1);
      }
    }
  }

  // ---- Edit scripts ------------------------------------------------------------

  function Texts(script: seq<DiffLine>, kind: Kind): Lines {
    if script == [] then []
    else (if script[0].kind == Same || script[0].kind == kind then [script[0].text] else []) + Texts(script[1..], kind)
  }

  /** The script turns a into b: its same and removed lines are a, its same and added
      lines are b. */
  predicate Edits(script: seq<DiffLine>, a: Lines, b: Lines) {
    Texts(script, Removed) == a && Texts(script, Added) == b
  }

  function Kept(script: seq<DiffLine>): Lines {
    Texts(script, Same)
  }

  /** The walk: keep equal lines, else follow the larger entry, removals first. */
  function Script(a: Lines, b: Lines, i: nat, j: nat): seq<DiffLine>
    requires i <= |a| && j <= |b|
    decreases |a| - i + |b| - j
  {
    if i == |a| && j == |b| then []
    else if i == |a| then [DiffLine(Added, b[j])] + Script(a, b, i, j + 1)
    else if j == |b| then [DiffLine(Removed, a[i])] + Script(a, b, i + 1, j)
    else if a[i] == b[j] then [DiffLine(Same, a[i])] + Script(a, b, i + 1, j + 1)
    else if Lcs(a, b, i + 1, j) >= Lcs(a, b, i, j + 1) then [DiffLine(Removed, a[i])] + Script(a, b, i + 1, j)
    else [DiffLine(Added, b[j])] + Script(a, b, i, j + 1)
  }

  lemma LcsUnfolds(a: Lines, b: Lines, i: nat, j: nat)
    requires i <= |a| && j <= |b|
    ensures i == |a| || j == |b| ==> Lcs(a, b, i, j) == 0
    ensures i < |a| && j < |b| && a[i] == b[j] ==> Lcs(a, b, i, j) == Lcs(a, b, i + 1, j + 1) + 1
    ensures i < |a| && j < |b| && a[i] != b[j] ==>
      Lcs(a, b, i, j) == Max(Lcs(a, b, i + 1, j), Lcs(a, b, i, j + 1))
  {
  }

  method FillTable(a: Lines, b: Lines) returns (lengths: array2<nat>)
    ensures lengths.Length0 == |a| + 1 && lengths.Length1 == |b| + 1
    ensures forall x, y | 0 <= x <= |a| && 0 <= y <= |b| :: lengths[x, y] == Lcs(a, b, x, y)
  {
    hide Lcs, Max;
    forall x, y | 0 <= x <= |a| && 0 <= y <= |b| && (x == |a| || y == |b|) ensures Lcs(a, b, x, y) == 0 {
      LcsUnfolds(a, b, x, y);
    }
    lengths := new nat[|a| + 1, |b| + 1]((_, _) => 0);
    for i := |a| downto 0
      invariant forall x, y | i <= x <= |a| && 0 <= y <= |b| :: lengths[x, y] == Lcs(a, b, x, y)
      invariant forall x | 0 <= x <= |a| :: lengths[x, |b|] == 0
    {
      for j := |b| downto 0
        invariant forall x, y | i < x <= |a| && 0 <= y <= |b| :: lengths[x, y] == Lcs(a, b, x, y)
        invariant forall y | j <= y <= |b| :: lengths[i, y] == Lcs(a, b, i, y)
        invariant forall x | 0 <= x <= |a| :: lengths[x, |b|] == 0
      {
        LcsUnfolds(a, b, i, j);
        lengths[i, j] := if a[i] == b[j] then lengths[i + 1, j + 1] + 1
                         else Max(lengths[i + 1, j], lengths[i, j + 1]);
      }
    }
  }

  lemma Shift(done: seq<DiffLine>, x: DiffLine, rest: seq<DiffLine>)
    ensures done + ([x] + rest) == (done + [x]) + rest
  {
  }

  method DiffLines(before: string, after: string) returns (result: seq<DiffLine>)
    ensures result == Script(Split(before), Split(after), 0, 0)
  {
    var a, b := Split(before), Split(after);
    hide Split, Lcs;
    var lengths := FillTable(a, b);
    result := [];
    var i, j := 0, 0;
    while i < |a| && j < |b|
      invariant i <= |a| && j <= |b|
      invariant forall x, y | 0 <= x <= |a| && 0 <= y <= |b| :: lengths[x, y] == Lcs(a, b, x, y)
      invariant result + Script(a, b, i, j) == Script(a, b, 0, 0)
      decreases |a| - i + |b| - j
    {
      if a[i] == b[j] {
        Shift(result, DiffLine(Same, a[i]), Script(a, b, i + 1, j + 1));
        result := result + [DiffLine(Same, a[i])];
        i, j := i + 1, j + 1;
      } else if lengths[i + 1, j] >= lengths[i, j + 1] {
        Shift(result, DiffLine(Removed, a[i]), Script(a, b, i + 1, j));
        result := result + [DiffLine(Removed, a[i])];
        i := i + 1;
      } else {
        Shift(result, DiffLine(Added, b[j]), Script(a, b, i, j + 1));
        result := result + [DiffLine(Added, b[j])];
        j := j + 1;
      }
    }
    while i < |a|
      invariant i <= |a| && j <= |b| && (i == |a| || j == |b|)
      invariant result + Script(a, b, i, j) == Script(a, b, 0, 0)
    {
      Shift(result, DiffLine(Removed, a[i]), Script(a, b, i + 1, j));
      result := result + [DiffLine(Removed, a[i])];
      i := i + 1;
    }
    while j < |b|
      invariant i == |a| && j <= |b|
      invariant result + Script(a, b, i, j) == Script(a, b, 0, 0)
    {
      Shift(result, DiffLine(Added, b[j]), Script(a, b, i, j + 1));
      result := result + [DiffLine(Added, b[j])];
      j := j + 1;
    }
  }

  // ---- What the script is worth -------------------------------------------------

  lemma {:induction false} ScriptEdits(a: Lines, b: Lines, i: nat, j: nat)
    requires i <= |a| && j <= |b|
    ensures Edits(Script(a, b, i, j), a[i..], b[j..])
    ensures |Kept(Script(a, b, i, j))| == Lcs(a, b, i, j)
    decreases |a| - i + |b| - j
  {
    if i < |a| && (j == |b| || a[i] == b[j] || Lcs(a, b, i + 1, j) >= Lcs(a, b, i, j + 1)) {
      assert a[i..] == [a[i]] + a[i + 1..];
      if j < |b| && a[i] == b[j] {
        assert b[j..] == [b[j]] + b[j + 1..];
        ScriptEdits(a, b, i + 1, j + 1);
      } else {
        ScriptEdits(a, b, i + 1, j);
      }
    } else if j < |b| {
      assert b[j..] == [b[j]] + b[j + 1..];
      ScriptEdits(a, b, i, j + 1);
    }
  }

  /** What any script keeps is a common subsequence, and its length is what it saves. */
  lemma {:induction false} KeptIsCommon(script: seq<DiffLine>)
    ensures Subsequence(Kept(script), Texts(script, Removed)) && Subsequence(Kept(script), Texts(script, Added))
    ensures |script| + |Kept(script)| == |Texts(script, Removed)| + |Texts(script, Added)|
  {
    if script != [] {
      KeptIsCommon(script[1..]);
      var x, rest := script[0], script[1..];
      match x.kind {
        case Same =>
          assert Kept(script) == [x.text] + Kept(rest);
          assert Texts(script, Removed) == [x.text] + Texts(rest, Removed);
          assert Texts(script, Added) == [x.text] + Texts(rest, Added);
        case Removed =>
          assert Kept(script) == Kept(rest) && Texts(script, Added) == Texts(rest, Added);
          assert Texts(script, Removed) == [x.text] + Texts(rest, Removed);
          assert Texts(script, Removed)[1..] == Texts(rest, Removed);
        case Added =>
          assert Kept(script) == Kept(rest) && Texts(script, Removed) == Texts(rest, Removed);
          assert Texts(script, Added) == [x.text] + Texts(rest, Added);
          assert Texts(script, Added)[1..] == Texts(rest, Added);
      }
    }
  }

  /** The diff is right and the best there is: it turns the one text's lines into the
      other's, the lines it keeps are a common subsequence, no common subsequence is
      longer, and no script that turns the one into the other is shorter. */
  lemma DiffIsOptimal(before: string, after: string, c: Lines, other: seq<DiffLine>)
    ensures var a, b := Split(before), Split(after);
            var diff := Script(a, b, 0, 0);
            && Edits(diff, a, b)
            && Subsequence(Kept(diff), a) && Subsequence(Kept(diff), b)
            && (Subsequence(c, a) && Subsequence(c, b) ==> |c| <= |Kept(diff)|)
            && (Edits(other, a, b) ==> |diff| <= |other|)
  {
    var a, b := Split(before), Split(after);
    var diff := Script(a, b, 0, 0);
    assert a[0..] == a && b[0..] == b;
    ScriptEdits(a, b, 0, 0);
    KeptIsCommon(diff);
    if Subsequence(c, a) && Subsequence(c, b) {
      LcsIsAnUpperBound(c, a, b, 0, 0);
    }
    if Edits(other, a, b) {
      KeptIsCommon(other);
      LcsIsAnUpperBound(Kept(other), a, b, 0, 0);
    }
  }

  // ---- Which of the shortest scripts it is ---------------------------------------

  function Rank(kind: Kind): nat {
    match kind
    case Same => 0
    case Removed => 1
    case Added => 2
  }

  /** Where two scripts first differ the first one keeps a line, or removes one and the
      other adds one. */
  predicate ComesFirst(script: seq<DiffLine>, other: seq<DiffLine>) {
    script == other
    || (script != [] && other != []
        && (Rank(script[0].kind) < Rank(other[0].kind) || (script[0] == other[0] && ComesFirst(script[1..], other[1..]))))
  }

  lemma ScriptLength(a: Lines, b: Lines, i: nat, j: nat)
    requires i <= |a| && j <= |b|
    ensures |Script(a, b, i, j)| + Lcs(a, b, i, j) == |a| - i + |b| - j
  {
    ScriptEdits(a, b, i, j);
    KeptIsCommon(Script(a, b, i, j));
  }

  lemma NoShorterScript(a: Lines, b: Lines, i: nat, j: nat, other: seq<DiffLine>)
    requires i <= |a| && j <= |b| && Edits(other, a[i..], b[j..])
    ensures |Script(a, b, i, j)| <= |other|
  {
    ScriptLength(a, b, i, j);
    KeptIsCommon(other);
    LcsIsAnUpperBound(Kept(other), a, b, i, j);
  }

  /** A script for two rests takes its first line from the one, the other or both. */
  lemma FirstLine(a: Lines, b: Lines, i: nat, j: nat, other: seq<DiffLine>)
    requires i <= |a| && j <= |b| && other != [] && Edits(other, a[i..], b[j..])
    ensures var x, rest := other[0], other[1..];
            match x.kind
            case Same => i < |a| && j < |b| && x.text == a[i] == b[j] && Edits(rest, a[i + 1..], b[j + 1..])
            case Removed => i < |a| && x.text == a[i] && Edits(rest, a[i + 1..], b[j..])
            case Added => j < |b| && x.text == b[j] && Edits(rest, a[i..], b[j + 1..])
  {
    var x, rest := other[0], other[1..];
    if !x.kind.Added? {
      assert ([x.text] + Texts(rest, Removed))[1..] == Texts(rest, Removed);
      assert a[i..][0] == x.text && a[i..][1..] == a[i + 1..];
    }
    if !x.kind.Removed? {
      assert ([x.text] + Texts(rest, Added))[1..] == Texts(rest, Added);
      assert b[j..][0] == x.text && b[j..][1..] == b[j + 1..];
    }
  }

  /** Of all the shortest scripts the walk finds the one that comes first. */
  lemma {:induction false} ComesFirstOfTheShortest(a: Lines, b: Lines, i: nat, j: nat, other: seq<DiffLine>)
    requires i <= |a| && j <= |b| && Edits(other, a[i..], b[j..]) && |other| <= |Script(a, b, i, j)|
    ensures ComesFirst(Script(a, b, i, j), other)
    decreases |other|
  {
    if other != [] {
      var rest := other[1..];
      FirstLine(a, b, i, j, other);
      ScriptLength(a, b, i, j);
      match other[0].kind
      case Same =>
        ComesFirstOfTheShortest(a, b, i + 1, j + 1, rest);
      case Removed =>
        NoShorterScript(a, b, i + 1, j, rest);
        ScriptLength(a, b, i + 1, j);
        if Script(a, b, i, j)[0].kind.Removed? {
          ComesFirstOfTheShortest(a, b, i + 1, j, rest);
        }
      case Added =>
        if Script(a, b, i, j)[0].kind.Added? {
          ComesFirstOfTheShortest(a, b, i, j + 1, rest);
        }
    } else {
      assert a[i..] == [] && b[j..] == [];
    }
  }

  lemma {:induction false} FirstIsUnique(script: seq<DiffLine>, other: seq<DiffLine>)
    requires ComesFirst(script, other) && ComesFirst(other, script)
    ensures script == other
  {
    if script != other {
      assert script == [script[0]] + script[1..] && other == [other[0]] + other[1..];
      FirstIsUnique(script[1..], other[1..]);
    }
  }

  /** The diff of two texts is that script, and is determined by it: it edits the lines of
      the one into those of the other, no such script is shorter, and of those as short it
      is the first. */
  lemma DiffIsDetermined(before: string, after: string, other: seq<DiffLine>)
    ensures var a, b := Split(before), Split(after);
            other == Script(a, b, 0, 0) <==>
              && Edits(other, a, b)
              && forall x | Edits(x, a, b) :: |other| <= |x| && (|other| == |x| ==> ComesFirst(other, x))
  {
    var a, b := Split(before), Split(after);
    var diff := Script(a, b, 0, 0);
    assert a[0..] == a && b[0..] == b;
    ScriptEdits(a, b, 0, 0);
    forall x | Edits(x, a, b) ensures |diff| <= |x| && (|diff| == |x| ==> ComesFirst(diff, x)) {
      NoShorterScript(a, b, 0, 0, x);
      if |diff| == |x| {
        ComesFirstOfTheShortest(a, b, 0, 0, x);
      }
    }
    if Edits(other, a, b) && forall x | Edits(x, a, b) :: |other| <= |x| && (|other| == |x| ==> ComesFirst(other, x)) {
      assert |other| <= |diff| && |diff| <= |other|;
      FirstIsUnique(diff, other);
    }
  }

  lemma {:induction false} AllSameMeansEqual(script: seq<DiffLine>)
    requires forall line | line in script :: line.kind == Same
    ensures Texts(script, Removed) == Texts(script, Added)
  {
    if script != [] {
      assert script == [script[0]] + script[1..];
      AllSameMeansEqual(script[1..]);
    }
  }

  lemma {:induction false} EqualMeansAllSame(a: Lines, i: nat)
    requires i <= |a|
    ensures forall line | line in Script(a, a, i, i) :: line.kind == Same
    decreases |a| - i
  {
    if i < |a| {
      EqualMeansAllSame(a, i + 1);
    }
  }

  /** The page says "identical" exactly when the two texts are. */
  lemma IdenticalExactlyWhenEqual(before: string, after: string)
    ensures (forall line | line in Script(Split(before), Split(after), 0, 0) :: line.kind == Same) <==> before == after
  {
    var a, b := Split(before), Split(after);
    assert a[0..] == a && b[0..] == b;
    ScriptEdits(a, b, 0, 0);
    JoinInvertsSplit(before);
    JoinInvertsSplit(after);
    if before == after {
      EqualMeansAllSame(a, 0);
    } else if forall line | line in Script(a, b, 0, 0) :: line.kind == Same {
      AllSameMeansEqual(Script(a, b, 0, 0));
    }
  }
}
