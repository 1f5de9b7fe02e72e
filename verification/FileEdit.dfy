/** The file_edit tool: replace the one place where `old_string` occurs. It rests on
    greedy counting of non-overlapping matches and on replacing the leftmost one. */
module FileEdit {
  import opened Options

  /* ---------- occurrences ---------- */

  predicate Occurs(text: string, sub: string, p: int) {
    0 <= p && p + |sub| <= |text| && text[p..p + |sub|] == sub
  }

  /** The leftmost occurrence at or after `from`. */
  function Index(text: string, sub: string, from: nat): (r: Option<nat>)
    ensures r.Some? ==> from <= r.value && Occurs(text, sub, r.value)
    ensures r.Some? ==> forall p :: from <= p < r.value ==> !Occurs(text, sub, p)
    ensures r.None? ==> forall p :: from <= p ==> !Occurs(text, sub, p)
    decreases |text| - from
  {
    if Occurs(text, sub, from) then Some(from)
    else if from >= |text| then None
    else Index(text, sub, from + 1)
  }

  /** How often `sub` is found, going on behind each match. */
  function Count(text: string, sub: string, from: nat): nat
    requires |sub| > 0
    decreases |text| - from
  {
    match Index(text, sub, from)
    case None => 0
    case Some(p) => 1 + Count(text, sub, p + |sub|)
  }

  /** The text with the leftmost occurrence replaced. */
  function ReplaceFirst(text: string, old_: string, new_: string): string {
    match Index(text, old_, 0)
    case None => text
    case Some(p) => text[..p] + new_ + text[p + |old_|..]
  }

  /* ---------- the greedy count is optimal ---------- */

  /** Positions at which `sub` occurs, at or after `from`, no two of which overlap. */
  ghost predicate Packing(text: string, sub: string, from: nat, ps: set<nat>) {
    && (forall p :: p in ps ==> from <= p && Occurs(text, sub, p))
    && (forall p, q :: p in ps && q in ps && p < q ==> p + |sub| <= q)
  }

  lemma SmallestOf(ps: set<nat>) returns (m: nat)
    requires ps != {}
    ensures m in ps && forall p :: p in ps ==> m <= p
  {
    var k :| k in ps;
    m := k;
    if p :| p in ps && p < k {
      assert p in ps - {k};
      m := SmallestOf(ps - {k});
      assert forall q :: q in ps ==> q == k || q in ps - {k};
    }
  }

  /** Behind the leftmost match there is room for all but the first of a packing. */
  lemma PackingRest(text: string, sub: string, from: nat, ps: set<nat>, m: nat)
    requires |sub| > 0 && Packing(text, sub, from, ps) && m in ps && forall p :: p in ps ==> m <= p
    ensures Index(text, sub, from).Some?
    ensures Packing(text, sub, Index(text, sub, from).value + |sub|, ps - {m})
  {
    assert Occurs(text, sub, m) && from <= m;
    assert Index(text, sub, from).value <= m;
  }

  lemma {:induction false} PackingAtMostCount(text: string, sub: string, from: nat, ps: set<nat>)
    requires |sub| > 0 && Packing(text, sub, from, ps)
    ensures |ps| <= Count(text, sub, from)
    decreases |ps|
  {
    if ps != {} {
      var m := SmallestOf(ps);
      PackingRest(text, sub, from, ps, m);
      PackingAtMostCount(text, sub, Index(text, sub, from).value + |sub|, ps - {m});
    }
  }

  /** A packing of this size exists. */
  ghost predicate Packs(text: string, sub: string, from: nat, n: nat) {
    exists ps :: Packing(text, sub, from, ps) && |ps| == n
  }

  /** A match and a packing behind it. */
  lemma PackingAdd(text: string, sub: string, from: nat, p: nat, n: nat)
    requires |sub| > 0 && from <= p && Occurs(text, sub, p) && Packs(text, sub, p + |sub|, n)
    ensures Packs(text, sub, from, 1 + n)
  {
    var rest :| Packing(text, sub, p + |sub|, rest) && |rest| == n;
    assert p !in rest;
    assert Packing(text, sub, from, {p} + rest) && |{p} + rest| == 1 + n;
  }

  lemma {:induction false} GreedyPacks(text: string, sub: string, from: nat)
    requires |sub| > 0
    ensures Packs(text, sub, from, Count(text, sub, from))
    decreases |text| - from
  {
    var r := Index(text, sub, from);
    if r.None? {
      assert Packing(text, sub, from, {});
    } else {
      GreedyPacks(text, sub, r.value + |sub|);
      PackingAdd(text, sub, from, r.value, Count(text, sub, r.value + |sub|));
    }
  }

  /** The count that gates an edit is the largest number of pairwise disjoint
      occurrences. */
  lemma CountIsMaximal(text: string, sub: string)
    requires |sub| > 0
    ensures Packs(text, sub, 0, Count(text, sub, 0))
    ensures forall ps :: Packing(text, sub, 0, ps) ==> |ps| <= Count(text, sub, 0)
  {
    GreedyPacks(text, sub, 0);
    forall ps | Packing(text, sub, 0, ps) ensures |ps| <= Count(text, sub, 0) {
      PackingAtMostCount(text, sub, 0, ps);
    }
  }

  lemma DisjointPair(text: string, sub: string, p: int, q: int)
    requires |sub| > 0 && Occurs(text, sub, p) && Occurs(text, sub, q) && p + |sub| <= q
    ensures Count(text, sub, 0) >= 2
  {
    var a: nat, b: nat := p, q;
    assert |{a, b}| == 2;
    PackingAtMostCount(text, sub, 0, {a, b});
  }

  lemma OccursAt(text: string, sub: string, p: int, i: nat)
    requires Occurs(text, sub, p) && i < |sub|
    ensures text[p + i] == sub[i]
  {
    assert text[p..p + |sub|][i] == text[p + i];
  }

  /** There is an occurrence, and any two overlap. */
  ghost predicate AllOverlap(text: string, sub: string) {
    && (exists p :: Occurs(text, sub, p))
    && (forall p, q :: Occurs(text, sub, p) && Occurs(text, sub, q) && p <= q ==> q < p + |sub|)
  }

  lemma OpenGateOverlaps(text: string, sub: string)
    requires |sub| > 0 && Count(text, sub, 0) == 1
    ensures AllOverlap(text, sub)
  {
    assert Occurs(text, sub, Index(text, sub, 0).value);
    forall p, q | Occurs(text, sub, p) && Occurs(text, sub, q) && p <= q ensures q < p + |sub| {
      if q >= p + |sub| {
        DisjointPair(text, sub, p, q);
      }
    }
  }

  lemma OverlapsOpenGate(text: string, sub: string)
    requires |sub| > 0 && AllOverlap(text, sub)
    ensures Count(text, sub, 0) == 1
  {
    var p := Index(text, sub, 0).value;
    var next := Index(text, sub, p + |sub|);
    assert Occurs(text, sub, p);
    assert Count(text, sub, 0) == 1 + Count(text, sub, p + |sub|);
  }

  /** The gate opens exactly when there is an occurrence and any two overlap. It is
      weaker than "occurs once". */
  lemma GateIff(text: string, sub: string)
    requires |sub| > 0
    ensures Count(text, sub, 0) == 1 <==> AllOverlap(text, sub)
  {
    if Count(text, sub, 0) == 1 {
      OpenGateOverlaps(text, sub);
    }
    if AllOverlap(text, sub) {
      OverlapsOpenGate(text, sub);
    }
  }

  /* ---------- the tool ---------- */

  datatype EditInput = EditInput(path: string, oldString: string, newString: string)

  /** What the operating system does with the write: all of it, nothing, or the file
      truncated and only the first bytes written. */
  datatype WriteOutcome = Written | Refused | Partial(k: nat)

  datatype EditResult =
    | MissingField
    | SameStrings
    | CannotRead
    | NotFound
    | Ambiguous(count: nat)
    | WriteError
    | Edited(path: string)

  type Files = map<string, string>

  /** Execute, on parsed input. The result, and the files afterwards. */
  function Execute(files: Files, input: EditInput, write: WriteOutcome): (EditResult, Files) {
    if input.path == "" || input.oldString == "" then (MissingField, files)
    else if input.oldString == input.newString then (SameStrings, files)
    else if input.path !in files then (CannotRead, files)
    else
      var text := files[input.path];
      var count := Count(text, input.oldString, 0);
      if count == 0 then (NotFound, files)
      else if count > 1 then (Ambiguous(count), files)
      else
        var newText := ReplaceFirst(text, input.oldString, input.newString);
        match write
        case Written => (Edited(input.path), files[input.path := newText])
        case Refused => (WriteError, files)
        case Partial(k) => (WriteError, files[input.path := newText[..if k <= |newText| then k else |newText|]])
  }

  /** Splitting a text at its leftmost match, when the gate is open. */
  lemma SplitAtMatch(text: string, old_: string) returns (pre: string, post: string)
    requires |old_| > 0 && Count(text, old_, 0) == 1
    ensures text == pre + old_ + post
    ensures forall new_ :: ReplaceFirst(text, old_, new_) == pre + new_ + post
    ensures forall q :: Occurs(text, old_, q) ==> |pre| <= q < |pre| + |old_|
  {
    var p := Index(text, old_, 0).value;
    pre, post := text[..p], text[p + |old_|..];
    GateIff(text, old_);
    assert Occurs(text, old_, p);
  }

  /** A successful edit: the file was pre + old + post, split at the leftmost match;
      it is now pre + new + post; every other occurrence of the old string overlaps
      that match; and no other file changed. */
  lemma SuccessfulEdit(files: Files, input: EditInput, write: WriteOutcome)
    requires Execute(files, input, write).0.Edited?
    ensures input.path in files
    ensures exists pre: string, post: string ::
      && files[input.path] == pre + input.oldString + post
      && Execute(files, input, write).1 == files[input.path := pre + input.newString + post]
      && (forall p :: Occurs(files[input.path], input.oldString, p) ==> |pre| <= p < |pre| + |input.oldString|)
  {
    var pre, post := SplitAtMatch(files[input.path], input.oldString);
  }

  lemma OpenGateEdits(files: Files, input: EditInput)
    requires input.path != "" && input.oldString != "" && input.oldString != input.newString && input.path in files
    requires Count(files[input.path], input.oldString, 0) == 1
    ensures Execute(files, input, Written) ==
      (Edited(input.path), files[input.path := ReplaceFirst(files[input.path], input.oldString, input.newString)])
  {
  }

  /** The result tells the truth: unless the write failed half-way, the files have changed
      exactly when the tool says that it edited one. */
  lemma ChangedIffEdited(files: Files, input: EditInput, write: WriteOutcome)
    requires !write.Partial?
    ensures Execute(files, input, write).1 != files <==> Execute(files, input, write).0.Edited?
  {
    if Execute(files, input, write).0.Edited? {
      var text := files[input.path];
      var pre, post := SplitAtMatch(text, input.oldString);
      MiddleDiffers(pre, input.oldString, input.newString, post);
      assert Execute(files, input, write).1[input.path] == pre + input.newString + post;
    }
  }

  lemma MiddleDiffers(pre: string, a: string, b: string, post: string)
    requires a != b
    ensures pre + a + post != pre + b + post
  {
    if |a| == |b| {
      assert (pre + a + post)[|pre|..|pre| + |a|] == a;
      assert (pre + b + post)[|pre|..|pre| + |b|] == b;
    }
  }

  /** `k` is the largest number of pairwise disjoint occurrences. */
  ghost predicate LargestPacking(text: string, sub: string, k: nat) {
    Packs(text, sub, 0, k) && forall ps :: Packing(text, sub, 0, ps) ==> |ps| <= k
  }

  lemma CountIsLargest(text: string, sub: string, k: nat)
    requires |sub| > 0
    ensures LargestPacking(text, sub, k) <==> k == Count(text, sub, 0)
  {
    CountIsMaximal(text, sub);
    if LargestPacking(text, sub, k) {
      var ps :| Packing(text, sub, 0, ps) && |ps| == Count(text, sub, 0);
    }
  }

  lemma NotFoundIff(text: string, sub: string)
    requires |sub| > 0
    ensures Count(text, sub, 0) == 0 <==> !exists p :: Occurs(text, sub, p)
  {
  }

  /** Which answer means what: what is missing or equal in the input, a file that cannot
      be read, no occurrence at all, `k` as the largest number of disjoint occurrences if
      that is two or more, and otherwise the outcome of the write. */
  lemma ResultTells(files: Files, input: EditInput, write: WriteOutcome, k: nat)
    ensures var r := Execute(files, input, write).0;
      var asks := input.path != "" && input.oldString != "";
      var tried := asks && input.oldString != input.newString && input.path in files;
      && (r == MissingField <==> !asks)
      && (r == SameStrings <==> asks && input.oldString == input.newString)
      && (r == CannotRead <==> asks && input.oldString != input.newString && input.path !in files)
      && (r == NotFound <==> tried && !exists p :: Occurs(files[input.path], input.oldString, p))
      && (r == Ambiguous(k) <==> tried && k >= 2 && LargestPacking(files[input.path], input.oldString, k))
      && (r == Edited(input.path) <==> tried && AllOverlap(files[input.path], input.oldString) && write.Written?)
      && (r == WriteError <==> tried && AllOverlap(files[input.path], input.oldString) && !write.Written?)
  {
    if input.path != "" && input.oldString != "" && input.oldString != input.newString && input.path in files {
      var text := files[input.path];
      NotFoundIff(text, input.oldString);
      CountIsLargest(text, input.oldString, k);
      GateIff(text, input.oldString);
    }
  }

  /** A failed write leaves the files as they were, or the file with only the beginning
      of what the edit would have written. */
  lemma FailedWrite(files: Files, input: EditInput, write: WriteOutcome)
    requires Execute(files, input, write).0 == WriteError
    ensures Execute(files, input, Written).0 == Edited(input.path)
    ensures var edited := Execute(files, input, Written).1[input.path];
      Execute(files, input, write).1 ==
        match write
        case Partial(k) => files[input.path := edited[..if k <= |edited| then k else |edited|]]
        case _ => files
  {
  }

  /* ---------- undoing an edit ---------- */

  function Inverse(input: EditInput): EditInput {
    EditInput(input.path, input.newString, input.oldString)
  }

  /** Some proper prefix of `s` is also a suffix: `s` can overlap itself. */
  ghost predicate Bordered(s: string) {
    exists b :: 0 < b < |s| && s[..b] == s[|s| - b..]
  }

  /** Two overlapping occurrences make a border. */
  lemma OverlapMakesBorder(text: string, s: string, p: int, q: int)
    requires Occurs(text, s, p) && Occurs(text, s, q) && p < q < p + |s|
    ensures Bordered(s)
  {
    var d := q - p;
    var b := |s| - d;
    forall i | 0 <= i < b ensures s[i] == s[d + i] {
      OccursAt(text, s, p, d + i);
      OccursAt(text, s, q, i);
    }
    assert s[..b] == s[|s| - b..];
  }

  /** Replacing at a position and replacing back. */
  lemma SpliceBack(text: string, p: nat, old_: string, new_: string)
    requires Occurs(text, old_, p)
    ensures var edited := text[..p] + new_ + text[p + |old_|..];
      Occurs(edited, new_, p) && edited[..p] + old_ + edited[p + |new_|..] == text
  {
    var edited := text[..p] + new_ + text[p + |old_|..];
    assert edited[p..p + |new_|] == new_;
    assert edited[..p] == text[..p] && edited[p + |new_|..] == text[p + |old_|..];
    assert text == text[..p] + text[p..p + |old_|] + text[p + |old_|..];
  }

  lemma UndoText(text: string, old_: string, new_: string)
    requires |old_| > 0 && |new_| > 0 && !Bordered(new_)
    requires Count(text, old_, 0) == 1
    requires Count(ReplaceFirst(text, old_, new_), new_, 0) == 1
    ensures ReplaceFirst(ReplaceFirst(text, old_, new_), new_, old_) == text
  {
    var p := Index(text, old_, 0).value;
    SpliceBack(text, p, old_, new_);
    var edited := ReplaceFirst(text, old_, new_);
    var q := Index(edited, new_, 0).value;
    assert q <= p;
    GateIff(edited, new_);
    if q < p {
      OverlapMakesBorder(edited, new_, q, p);
    }
  }

  /** The edit succeeds, and so does its inverse afterwards. */
  ghost predicate EditedThereAndBack(files: Files, input: EditInput) {
    && Execute(files, input, Written).0.Edited?
    && Execute(Execute(files, input, Written).1, Inverse(input), Written).0.Edited?
  }

  /** What the two leave behind. */
  ghost function ThereAndBack(files: Files, input: EditInput): Files {
    Execute(Execute(files, input, Written).1, Inverse(input), Written).1
  }

  /** An edit that writes a string which cannot overlap itself is undone by the
      inverse edit, whenever that one succeeds. */
  lemma UnborderedUndo(files: Files, input: EditInput)
    requires EditedThereAndBack(files, input) && !Bordered(input.newString)
    ensures ThereAndBack(files, input) == files
  {
    OpenGateEdits(files, input);
    OpenGateEdits(Execute(files, input, Written).1, Inverse(input));
    UndoText(files[input.path], input.oldString, input.newString);
  }

  /** The edit that a bordered string spoils: with d the distance at which `s`
      overlaps itself, the text is s[..d] + x, where x is c...c followed by the first
      character of s, and c is another character. */
  function Spoiler(s: string): string
    requires |s| > 0
  {
    var c := if s[0] == 'a' then 'b' else 'a';
    seq(|s|, _ => c) + [s[0]]
  }

  lemma SpoilerOccursOnce(s: string, d: nat)
    requires 0 < d < |s|
    ensures var x, text := Spoiler(s), s[..d] + Spoiler(s);
      Count(text, x, 0) == 1 && Index(text, x, 0) == Some(d)
  {
    var x, text := Spoiler(s), s[..d] + Spoiler(s);
    assert text[d..d + |x|] == x;
    assert Occurs(text, x, d);
    forall p | 0 <= p < d ensures !Occurs(text, x, p) {
      assert text[p + |s|] == x[p + |s| - d] != x[|s|];
      if Occurs(text, x, p) {
        OccursAt(text, x, p, |s|);
      }
    }
    assert Index(text, x, 0) == Some(d);
    assert Index(text, x, d + |x|) == None;
  }

  /** A string with period d, behind its own first d characters, is found at the start,
      and passes the gate. */
  lemma PeriodicFoundFirst(s: string, b: nat)
    requires 0 < b < |s| && s[..b] == s[|s| - b..]
    ensures var edited := s[..|s| - b] + s;
      Count(edited, s, 0) == 1 && Index(edited, s, 0) == Some(0)
  {
    var d := |s| - b;
    var edited := s[..d] + s;
    forall i | 0 <= i < |s| ensures edited[i] == s[i] {
      if i >= d {
        assert s[..b][i - d] == s[|s| - b..][i - d];
      }
    }
    assert edited[0..|s|] == s;
    assert Occurs(edited, s, 0);
    assert Index(edited, s, 0) == Some(0);
    assert Index(edited, s, |s|) == None;
  }

  lemma ReplaceAtEnd(pre: string, old_: string, new_: string)
    requires Index(pre + old_, old_, 0) == Some(|pre|)
    ensures ReplaceFirst(pre + old_, old_, new_) == pre + new_
  {
    assert (pre + old_)[..|pre|] == pre && (pre + old_)[|pre| + |old_|..] == "";
  }

  lemma ReplaceAtStart(text: string, old_: string, new_: string)
    requires Index(text, old_, 0) == Some(0) && |new_| > 0
    ensures |ReplaceFirst(text, old_, new_)| > 0 && ReplaceFirst(text, old_, new_)[0] == new_[0]
  {
  }

  /** On the spoiler's text both edits pass the gate, and the second one replaces the
      wrong place. */
  lemma SpoiledText(s: string, b: nat)
    requires 0 < b < |s| && s[..b] == s[|s| - b..]
    ensures var x := Spoiler(s);
      var text := s[..|s| - b] + x;
      && Count(text, x, 0) == 1
      && Count(ReplaceFirst(text, x, s), s, 0) == 1
      && ReplaceFirst(ReplaceFirst(text, x, s), s, x) != text
  {
    var x, pre := Spoiler(s), s[..|s| - b];
    SpoilerOccursOnce(s, |s| - b);
    ReplaceAtEnd(pre, x, s);
    PeriodicFoundFirst(s, b);
    ReplaceAtStart(pre + s, s, x);
    assert (pre + x)[0] == s[0] != x[0];
  }

  lemma SpoiledFiles(files: Files, input: EditInput)
    requires input.path != "" && input.path in files
    requires input.oldString != "" && input.newString != "" && input.oldString != input.newString
    requires var text := files[input.path];
      var edited := ReplaceFirst(text, input.oldString, input.newString);
      && Count(text, input.oldString, 0) == 1
      && Count(edited, input.newString, 0) == 1
      && ReplaceFirst(edited, input.newString, input.oldString) != text
    ensures EditedThereAndBack(files, input) && ThereAndBack(files, input) != files
  {
    OpenGateEdits(files, input);
    var now := Execute(files, input, Written).1;
    OpenGateEdits(now, Inverse(input));
    assert ThereAndBack(files, input)[input.path] != files[input.path];
  }

  /** With a border, both edits succeed and the file is not restored. */
  lemma BorderedSpoils(s: string)
    requires Bordered(s)
    ensures exists files: Files, input: EditInput ::
      input.newString == s && EditedThereAndBack(files, input) && ThereAndBack(files, input) != files
  {
    var b :| 0 < b < |s| && s[..b] == s[|s| - b..];
    var files, input := SpoiledBy(s, b);
  }

  lemma SpoiledBy(s: string, b: nat) returns (files: Files, input: EditInput)
    requires 0 < b < |s| && s[..b] == s[|s| - b..]
    ensures input.newString == s && EditedThereAndBack(files, input) && ThereAndBack(files, input) != files
  {
    var x := Spoiler(s);
    var text := s[..|s| - b] + x;
    SpoiledText(s, b);
    files, input := map["f" := text], EditInput("f", x, s);
    assert x[0] != s[0];
    SpoiledFiles(files, input);
  }

  /** Undo, exactly: for a new string s, in all files and for all old strings, a
      successful edit followed by its successful inverse restores the files, if and
      only if s has no border. */
  lemma UndoIff(s: string)
    ensures
      (forall files: Files, input: EditInput ::
        input.newString == s && EditedThereAndBack(files, input) ==> ThereAndBack(files, input) == files)
      <==> !Bordered(s)
  {
    if Bordered(s) {
      BorderedSpoils(s);
    } else {
      forall files: Files, input: EditInput | input.newString == s && EditedThereAndBack(files, input)
        ensures ThereAndBack(files, input) == files
      {
        UnborderedUndo(files, input);
      }
    }
  }

  /* ---------- what the gate promises ---------- */

  /** "aa" passes the gate in "aaa", where it occurs twice. */
  lemma GateIsNotUniqueness()
    ensures Count("aaa", "aa", 0) == 1 && Occurs("aaa", "aa", 0) && Occurs("aaa", "aa", 1)
  {
    assert Index("aaa", "aa", 0) == Some(0);
    assert Index("aaa", "aa", 2) == None;
  }

  /** The tool promises a unique match. An open gate means that the old string occurs
      once, in every text, exactly when the old string cannot overlap itself. */
  lemma OpenGateIsUniqueIff(s: string)
    requires |s| > 0
    ensures
      (forall text, p, q :: Count(text, s, 0) == 1 && Occurs(text, s, p) && Occurs(text, s, q) ==> p == q)
      <==> !Bordered(s)
  {
    if Bordered(s) {
      var text, p, q := BorderedTwice(s);
    } else {
      forall text, p, q | Count(text, s, 0) == 1 && Occurs(text, s, p) && Occurs(text, s, q) ensures p == q {
        UnborderedUnique(text, s, p, q);
      }
    }
  }

  lemma BorderedTwice(s: string) returns (text: string, p: int, q: int)
    requires Bordered(s)
    ensures Count(text, s, 0) == 1 && Occurs(text, s, p) && Occurs(text, s, q) && p != q
  {
    var b :| 0 < b < |s| && s[..b] == s[|s| - b..];
    text, p, q := s[..|s| - b] + s, 0, |s| - b;
    PeriodicFoundFirst(s, b);
    assert text[q..q + |s|] == s;
  }

  lemma UnborderedUnique(text: string, s: string, p: int, q: int)
    requires |s| > 0 && Count(text, s, 0) == 1 && Occurs(text, s, p) && Occurs(text, s, q) && !Bordered(s)
    ensures p == q
  {
    GateIff(text, s);
    if p < q {
      OverlapMakesBorder(text, s, p, q);
    } else if q < p {
      OverlapMakesBorder(text, s, q, p);
    }
  }
}
