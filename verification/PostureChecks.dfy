/** Comparison of posture checks (isChecksEqual in client/internal/engine.go): file lists are
    sorted and joined with a bar, the joined texts are sorted and compared. */
module PostureChecks {
  import opened Prelude

  const BAR := '|'

  // -------------------------------------------------------------- string ordering

  /** Lexicographic order of strings. */
  predicate Leq(a: string, b: string) {
    a == "" || (b != "" && (a[0] < b[0] || (a[0] == b[0] && Leq(a[1..], b[1..]))))
  }

  lemma {:induction false} LeqTotal(a: string, b: string)
    ensures Leq(a, b) || Leq(b, a)
  {
    if a != "" && b != "" { LeqTotal(a[1..], b[1..]); }
  }

  lemma {:induction false} LeqAntisymmetric(a: string, b: string)
    requires Leq(a, b) && Leq(b, a)
    ensures a == b
  {
    if a != "" && b != "" {
      LeqAntisymmetric(a[1..], b[1..]);
      assert a == [a[0]] + a[1..] && b == [b[0]] + b[1..];
    }
  }

  lemma {:induction false} LeqTransitive(a: string, b: string, c: string)
    requires Leq(a, b) && Leq(b, c)
    ensures Leq(a, c)
  {
    if a != "" && a[0] == b[0] == c[0] { LeqTransitive(a[1..], b[1..], c[1..]); }
  }

  predicate Sorted(s: seq<string>) {
    forall i, j :: 0 <= i < j < |s| ==> Leq(s[i], s[j])
  }

  function Insert(x: string, s: seq<string>): seq<string> {
    if s == [] then [x]
    else if Leq(x, s[0]) then [x] + s
    else [s[0]] + Insert(x, s[1..])
  }

  /** `sort.Strings`. */
  function Sort(s: seq<string>): seq<string> {
    if s == [] then [] else Insert(s[0], Sort(s[1..]))
  }

  lemma {:induction false} InsertSorts(x: string, s: seq<string>)
    requires Sorted(s)
    ensures Sorted(Insert(x, s)) && multiset(Insert(x, s)) == multiset(s) + multiset{x}
  {
    if s != [] {
      var tail := s[1..];
      assert s == [s[0]] + tail;
      if Leq(x, s[0]) {
        forall j | 0 <= j < |s| ensures Leq(x, s[j]) {
          if j > 0 { LeqTransitive(x, s[0], s[j]); }
        }
      } else {
        LeqTotal(x, s[0]);
        InsertSorts(x, tail);
        var rec := Insert(x, tail);
        forall j | 0 <= j < |rec| ensures Leq(s[0], rec[j]) {
          assert rec[j] in multiset(rec);
          assert rec[j] == x || rec[j] in multiset(tail);
        }
      }
    }
  }

  lemma {:induction false} SortSorts(s: seq<string>)
    ensures Sorted(Sort(s)) && multiset(Sort(s)) == multiset(s)
  {
    if s != [] {
      SortSorts(s[1..]);
      InsertSorts(s[0], Sort(s[1..]));
      assert s == [s[0]] + s[1..];
    }
  }

  lemma LeastFirst(a: seq<string>, b: seq<string>)
    requires Sorted(a) && a != [] && b != [] && multiset(a) == multiset(b)
    ensures Leq(a[0], b[0])
  {
    assert b[0] in multiset(a);
    var j :| 0 <= j < |a| && a[j] == b[0];
    if j == 0 { LeqTotal(a[0], a[0]); }
  }

  /** A sorted list is determined by its elements. */
  lemma {:induction false} SortedUnique(a: seq<string>, b: seq<string>)
    requires Sorted(a) && Sorted(b) && multiset(a) == multiset(b)
    ensures a == b
  {
    assert |a| == |multiset(a)| == |multiset(b)| == |b|;
    if a != [] {
      LeastFirst(a, b);
      LeastFirst(b, a);
      LeqAntisymmetric(a[0], b[0]);
      TailMultiset(a);
      TailMultiset(b);
      SortedUnique(a[1..], b[1..]);
      assert a == [a[0]] + a[1..] && b == [b[0]] + b[1..];
    }
  }

  lemma TailMultiset(a: seq<string>)
    requires a != []
    ensures multiset(a[1..]) == multiset(a) - multiset{a[0]}
  {
    assert a == [a[0]] + a[1..];
  }

  lemma SortDecides(a: seq<string>, b: seq<string>)
    ensures Sort(a) == Sort(b) <==> multiset(a) == multiset(b)
  {
    SortSorts(a);
    SortSorts(b);
    if multiset(a) == multiset(b) { SortedUnique(Sort(a), Sort(b)); }
  }

  predicate BarFree(names: seq<string>) {
    Free(names, BAR)
  }

  // -------------------------------------------------------------- normal forms

  function Form(files: seq<string>): string {
    Join(Sort(files), BAR)
  }

  function Forms(checks: seq<seq<string>>): seq<string> {
    seq(|checks|, i requires 0 <= i < |checks| => Form(checks[i]))
  }

  function Normalize(checks: seq<seq<string>>): seq<string> {
    Sort(Forms(checks))
  }

  predicate ChecksEqual(c1: seq<seq<string>>, c2: seq<seq<string>>) {
    Normalize(c1) == Normalize(c2)
  }

  /** The code, with its loop over the checks. */
  method NormalizeChecks(checks: seq<seq<string>>) returns (normalized: seq<string>)
    ensures normalized == Normalize(checks)
  {
    normalized := [];
    for i := 0 to |checks|
      invariant normalized == Forms(checks[..i])
    {
      var sortedFiles := Sort(checks[i]);
      normalized := normalized + [Join(sortedFiles, BAR)];
      assert normalized == Forms(checks[..i + 1]);
    }
    assert checks[..|checks|] == checks;
    normalized := Sort(normalized);
  }

  method IsChecksEqual(c1: seq<seq<string>>, c2: seq<seq<string>>) returns (equal: bool)
    ensures equal <==> ChecksEqual(c1, c2)
  {
    var n1 := NormalizeChecks(c1);
    var n2 := NormalizeChecks(c2);
    equal := n1 == n2;
  }

  // ------------------------------------------------------------------ meaning

  /** The files of a check as a multiset; a list with one empty name counts as no file. */
  function Bag(files: seq<string>): multiset<string> {
    if files == [""] then multiset{} else multiset(files)
  }

  function Bags(checks: seq<seq<string>>): seq<multiset<string>> {
    seq(|checks|, i requires 0 <= i < |checks| => Bag(checks[i]))
  }

  predicate AllBarFree(checks: seq<seq<string>>) {
    forall i :: 0 <= i < |checks| ==> BarFree(checks[i])
  }

  lemma SortedBarFree(files: seq<string>)
    requires BarFree(files)
    ensures BarFree(Sort(files)) && |Sort(files)| == |files|
  {
    SortSorts(files);
    var s := Sort(files);
    assert |multiset(s)| == |s| && |multiset(files)| == |files|;
    forall i | 0 <= i < |s| ensures BAR !in s[i] {
      assert s[i] in multiset(files);
    }
  }

  lemma OneEmptyName(files: seq<string>)
    requires BarFree(files) && files != []
    ensures Form(files) == "" <==> files == [""]
  {
    SortedBarFree(files);
    SortSorts(files);
    var s := Sort(files);
    if |s| == 1 {
      assert s == [s[0]] && files == [files[0]];
      assert files[0] in multiset(s);
    } else {
      assert Form(files)[|s[0]|] == BAR;
    }
  }

  /** Without bars in the names, normal forms are equal exactly when the file bags are. */
  lemma FormDecides(f: seq<string>, g: seq<string>)
    requires BarFree(f) && BarFree(g)
    ensures Form(f) == Form(g) <==> Bag(f) == Bag(g)
  {
    SortedBarFree(f);
    SortedBarFree(g);
    SortDecides(f, g);
    if f != [] { OneEmptyName(f); }
    if g != [] { OneEmptyName(g); }
    if f != [] && g != [] && Form(f) == Form(g) {
      SplitJoin(Sort(f), BAR);
      SplitJoin(Sort(g), BAR);
    }
    BagEmpty(f);
    BagEmpty(g);
  }

  lemma BagEmpty(f: seq<string>)
    ensures Bag(f) == multiset{} <==> f == [] || f == [""]
    ensures f != [] && f != [""] ==> Bag(f) == multiset(f)
  {
    if f != [] { assert f[0] in multiset(f); }
  }

  lemma FormCounts(front: seq<seq<string>>, last: seq<string>, t: string)
    ensures multiset(Forms(front + [last]))[t] == multiset(Forms(front))[t] + if Form(last) == t then 1 else 0
  {
    assert Forms(front + [last]) == Forms(front) + [Form(last)];
  }

  lemma BagCounts(front: seq<seq<string>>, last: seq<string>, b: multiset<string>)
    ensures multiset(Bags(front + [last]))[b] == multiset(Bags(front))[b] + if Bag(last) == b then 1 else 0
  {
    assert Bags(front + [last]) == Bags(front) + [Bag(last)];
  }

  /** A form occurs in a list as often as its bag does. */
  lemma {:induction false} SameCounts(checks: seq<seq<string>>, f: seq<string>)
    requires AllBarFree(checks) && BarFree(f)
    ensures multiset(Forms(checks))[Form(f)] == multiset(Bags(checks))[Bag(f)]
  {
    if checks != [] {
      var front, last := checks[..|checks| - 1], checks[|checks| - 1];
      assert checks == front + [last];
      SameCounts(front, f);
      FormDecides(last, f);
      FormCounts(front, last, Form(f));
      BagCounts(front, last, Bag(f));
    }
  }

  /** For names without a bar, the comparison decides equality of multisets of file multisets,
      up to identifying the empty list with a list of one empty name. */
  lemma ChecksEqualIff(c1: seq<seq<string>>, c2: seq<seq<string>>)
    requires AllBarFree(c1) && AllBarFree(c2)
    ensures ChecksEqual(c1, c2) <==> multiset(Bags(c1)) == multiset(Bags(c2))
  {
    SortDecides(Forms(c1), Forms(c2));
    if multiset(Forms(c1)) == multiset(Forms(c2)) {
      forall b ensures multiset(Bags(c1))[b] == multiset(Bags(c2))[b] {
        if b in Bags(c1) {
          var i :| 0 <= i < |Bags(c1)| && Bags(c1)[i] == b;
          SameCounts(c1, c1[i]);
          SameCounts(c2, c1[i]);
        } else if b in Bags(c2) {
          var i :| 0 <= i < |Bags(c2)| && Bags(c2)[i] == b;
          SameCounts(c1, c2[i]);
          SameCounts(c2, c2[i]);
        }
      }
    }
    if multiset(Bags(c1)) == multiset(Bags(c2)) {
      forall t ensures multiset(Forms(c1))[t] == multiset(Forms(c2))[t] {
        if t in Forms(c1) {
          var i :| 0 <= i < |Forms(c1)| && Forms(c1)[i] == t;
          SameCounts(c1, c1[i]);
          SameCounts(c2, c1[i]);
        } else if t in Forms(c2) {
          var i :| 0 <= i < |Forms(c2)| && Forms(c2)[i] == t;
          SameCounts(c1, c2[i]);
          SameCounts(c2, c2[i]);
        }
      }
    }
  }

  function FileBags(checks: seq<seq<string>>): seq<multiset<string>> {
    seq(|checks|, i requires 0 <= i < |checks| => multiset(checks[i]))
  }

  /** With names that are moreover non-empty it is exactly multiset equality at both levels. */
  lemma ChecksEqualNamed(c1: seq<seq<string>>, c2: seq<seq<string>>)
    requires AllBarFree(c1) && AllBarFree(c2)
    requires forall i, j :: 0 <= i < |c1| && 0 <= j < |c1[i]| ==> c1[i][j] != ""
    requires forall i, j :: 0 <= i < |c2| && 0 <= j < |c2[i]| ==> c2[i][j] != ""
    ensures ChecksEqual(c1, c2) <==> multiset(FileBags(c1)) == multiset(FileBags(c2))
  {
    ChecksEqualIff(c1, c2);
    assert Bags(c1) == FileBags(c1);
    assert Bags(c2) == FileBags(c2);
  }

  // ------------------------------------------------------------------ arbitrary names

  /** The bar-free pieces of a list of names, one name after the other. */
  function Pieces(names: seq<string>): seq<string> {
    if names == [] then [""]
    else if |names| == 1 then Split(names[0], BAR)
    else Split(names[0], BAR) + Pieces(names[1..])
  }

  lemma {:induction false} SplitJoined(names: seq<string>)
    ensures Split(Join(names, BAR), BAR) == Pieces(names)
  {
    if |names| > 1 {
      SplitJoined(names[1..]);
      SplitConcat(names[0], Join(names[1..], BAR), BAR);
    }
  }

  /** For any names whatever, normal forms are equal exactly when the sorted names fall into the
      same pieces. */
  lemma FormIffPieces(f: seq<string>, g: seq<string>)
    ensures Form(f) == Form(g) <==> Pieces(Sort(f)) == Pieces(Sort(g))
  {
    SplitJoined(Sort(f));
    SplitJoined(Sort(g));
    JoinSplit(Form(f), BAR);
    JoinSplit(Form(g), BAR);
  }

  function PieceLists(checks: seq<seq<string>>): seq<seq<string>> {
    seq(|checks|, i requires 0 <= i < |checks| => Pieces(Sort(checks[i])))
  }

  lemma PieceCounts(front: seq<seq<string>>, last: seq<string>, t: seq<string>)
    ensures multiset(PieceLists(front + [last]))[t]
         == multiset(PieceLists(front))[t] + if Pieces(Sort(last)) == t then 1 else 0
  {
    assert PieceLists(front + [last]) == PieceLists(front) + [Pieces(Sort(last))];
  }

  lemma {:induction false} SamePieceCounts(checks: seq<seq<string>>, f: seq<string>)
    ensures multiset(Forms(checks))[Form(f)] == multiset(PieceLists(checks))[Pieces(Sort(f))]
  {
    if checks != [] {
      var front, last := checks[..|checks| - 1], checks[|checks| - 1];
      assert checks == front + [last];
      SamePieceCounts(front, f);
      FormIffPieces(last, f);
      FormCounts(front, last, Form(f));
      PieceCounts(front, last, Pieces(Sort(f)));
    }
  }

  lemma FormsGivePieces(c1: seq<seq<string>>, c2: seq<seq<string>>, t: seq<string>)
    requires multiset(Forms(c1)) == multiset(Forms(c2)) && t in PieceLists(c1)
    ensures multiset(PieceLists(c1))[t] == multiset(PieceLists(c2))[t]
  {
    var i :| 0 <= i < |c1| && PieceLists(c1)[i] == t;
    SamePieceCounts(c1, c1[i]);
    SamePieceCounts(c2, c1[i]);
  }

  lemma PiecesGiveForms(c1: seq<seq<string>>, c2: seq<seq<string>>, t: string)
    requires multiset(PieceLists(c1)) == multiset(PieceLists(c2)) && t in Forms(c1)
    ensures multiset(Forms(c1))[t] == multiset(Forms(c2))[t]
  {
    var i :| 0 <= i < |c1| && Forms(c1)[i] == t;
    SamePieceCounts(c1, c1[i]);
    SamePieceCounts(c2, c1[i]);
  }

  /** What the comparison decides on all inputs: equality of the multisets of piece lists. */
  lemma ChecksEqualAlways(c1: seq<seq<string>>, c2: seq<seq<string>>)
    ensures ChecksEqual(c1, c2) <==> multiset(PieceLists(c1)) == multiset(PieceLists(c2))
  {
    SortDecides(Forms(c1), Forms(c2));
    if multiset(Forms(c1)) == multiset(Forms(c2)) {
      forall t ensures multiset(PieceLists(c1))[t] == multiset(PieceLists(c2))[t] {
        if t in PieceLists(c1) {
          FormsGivePieces(c1, c2, t);
        } else if t in PieceLists(c2) {
          FormsGivePieces(c2, c1, t);
        }
      }
    }
    if multiset(PieceLists(c1)) == multiset(PieceLists(c2)) {
      forall t ensures multiset(Forms(c1))[t] == multiset(Forms(c2))[t] {
        if t in Forms(c1) {
          PiecesGiveForms(c1, c2, t);
        } else if t in Forms(c2) {
          PiecesGiveForms(c2, c1, t);
        }
      }
    }
  }

  /** The two hypotheses cannot be dropped: these checks differ but compare as equal. */
  lemma BarsAndEmptyNamesCollide()
    ensures ChecksEqual([["a|b"]], [["a", "b"]]) && multiset(["a|b"]) != multiset(["a", "b"])
    ensures ChecksEqual([[]], [[""]]) && multiset([]) != multiset([""])
  {
    assert Sort(["b"]) == ["b"];
    assert Leq("a", "b");
    assert Sort(["a", "b"]) == ["a", "b"];
    assert Join(["b"], BAR) == "b";
    assert Join(["a", "b"], BAR) == "a|b";
    assert Sort(["a|b"]) == ["a|b"];
    assert Forms([["a|b"]]) == ["a|b"] && Forms([["a", "b"]]) == ["a|b"];
    assert "a|b" in multiset(["a|b"]) && "a|b" !in multiset(["a", "b"]);
    assert Sort([""]) == [""];
    assert Forms([[]]) == [""] && Forms([[""]]) == [""];
    assert "" in multiset([""]);
  }
}
