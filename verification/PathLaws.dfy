/** What parsing a path does to its components, as laws on the strings.  Names stand for
    themselves; a "." can be left out; a name and the ".." behind it can be left out together; a
    ".." at the very start is kept in a relative path and makes an absolute one invalid. */
module PathLaws {
  import opened PathSlides
  import opened PathNames

  /** The string of a relative path; Joined is that of an absolute one. */
  function Spelled(cs: seq<string>): string
    requires cs != []
  {
    cs[0] + Joined(cs[1..])
  }

  lemma AbsoluteParse(cs: seq<string>)
    requires cs != [] && AllPlain(cs)
    ensures Parse(Joined(cs)) == Path(Reduce([], cs, false).0, false, Reduce([], cs, false).1)
  {
    JoinedPieces(cs);
    assert ([""] + cs)[1..] == cs;
  }

  lemma RelativeParse(cs: seq<string>)
    requires cs != [] && AllPlain(cs)
    ensures Parse(Spelled(cs)) == Path(Reduce([], cs, true).0, true, Reduce([], cs, true).1)
  {
    PiecesJoined(cs[0], cs[1..]);
    assert [cs[0]] + cs[1..] == cs;
  }

  lemma {:induction false} ReduceAfter(kept: seq<string>, a: seq<string>, x: seq<string>, isRelative: bool)
    requires AllNames(a)
    ensures Reduce(kept, a + x, isRelative) == Reduce(kept + a, x, isRelative)
    decreases |a|
  {
    if a == [] {
      assert a + x == x && kept + a == kept;
    } else {
      assert (a + x)[1..] == a[1..] + x;
      assert kept + [a[0]] + a[1..] == kept + a;
      ReduceAfter(kept + [a[0]], a[1..], x, isRelative);
    }
  }

  lemma ReduceStepUp(kept: seq<string>, c: string, x: seq<string>, isRelative: bool)
    requires Name(c)
    ensures Reduce(kept, [c, ".."] + x, isRelative) == Reduce(kept, x, isRelative)
  {
    var cs := [c, ".."] + x;
    assert cs[1..] == [".."] + x && ([".."] + x)[1..] == x;
    assert (kept + [c])[..|kept + [c]| - 1] == kept;
  }

  lemma ReduceDot(kept: seq<string>, x: seq<string>, isRelative: bool)
    ensures Reduce(kept, ["."] + x, isRelative) == Reduce(kept, x, isRelative)
  {
    assert (["."] + x)[1..] == x;
  }

  lemma NamePlain(c: string)
    ensures Name(c) ==> Plain(c)
    ensures Plain(".") && Plain("..")
  {
  }

  /** Names stand for themselves. */
  lemma NamesStay(a: seq<string>)
    requires a != [] && AllNames(a)
    ensures Parse(Joined(a)) == Path(a, false, true) && Parse(Spelled(a)) == Path(a, true, true)
  {
    AbsoluteParse(a);
    RelativeParse(a);
    ReduceNames([], a, false);
    ReduceNames([], a, true);
    assert [] + a == a;
  }

  /** A name and the step up behind it can be left out. */
  lemma StepUpErases(a: seq<string>, c: string, x: seq<string>)
    requires AllNames(a) && Name(c) && AllPlain(x) && a + x != []
    ensures Parse(Joined(a + [c, ".."] + x)) == Parse(Joined(a + x))
    ensures Parse(Spelled(a + [c, ".."] + x)) == Parse(Spelled(a + x))
  {
    var long, short := a + [c, ".."] + x, a + x;
    NamePlain(c);
    AbsoluteParse(long);
    AbsoluteParse(short);
    RelativeParse(long);
    RelativeParse(short);
    ReduceErased(a, c, x, false);
    ReduceErased(a, c, x, true);
  }

  lemma ReduceErased(a: seq<string>, c: string, x: seq<string>, isRelative: bool)
    requires AllNames(a) && Name(c)
    ensures Reduce([], a + [c, ".."] + x, isRelative) == Reduce([], a + x, isRelative)
  {
    assert a + [c, ".."] + x == a + ([c, ".."] + x);
    ReduceAfter([], a, [c, ".."] + x, isRelative);
    ReduceAfter([], a, x, isRelative);
    ReduceStepUp([] + a, c, x, isRelative);
  }

  /** If nothing else is there, what is left is the root or the empty relative path. */
  lemma StepUpLeavesNothing(c: string)
    requires Name(c)
    ensures Parse(Joined([c, ".."])) == Path([], false, true) && Parse(Spelled([c, ".."])) == Path([], true, true)
  {
    NamePlain(c);
    AbsoluteParse([c, ".."]);
    RelativeParse([c, ".."]);
    ReduceStepUp([], c, [], false);
    ReduceStepUp([], c, [], true);
    assert [c, ".."] + [] == [c, ".."];
  }

  /** A "." can be left out. */
  lemma DotErased(a: seq<string>, x: seq<string>)
    requires AllNames(a) && AllPlain(x) && a + x != []
    ensures Parse(Joined(a + ["."] + x)) == Parse(Joined(a + x))
    ensures Parse(Spelled(a + ["."] + x)) == Parse(Spelled(a + x))
  {
    var long, short := a + ["."] + x, a + x;
    NamePlain(".");
    AbsoluteParse(long);
    AbsoluteParse(short);
    RelativeParse(long);
    RelativeParse(short);
    ReduceDotErased(a, x, false);
    ReduceDotErased(a, x, true);
  }

  lemma ReduceDotErased(a: seq<string>, x: seq<string>, isRelative: bool)
    requires AllNames(a)
    ensures Reduce([], a + ["."] + x, isRelative) == Reduce([], a + x, isRelative)
  {
    assert a + ["."] + x == a + (["."] + x);
    ReduceAfter([], a, ["."] + x, isRelative);
    ReduceAfter([], a, x, isRelative);
    ReduceDot([] + a, x, isRelative);
  }

  /** An absolute path cannot step up from the root. */
  lemma AboveRoot(x: seq<string>)
    requires AllPlain(x)
    ensures Parse(Joined([".."] + x)) == Path([".."] + x, false, false)
  {
    InvalidSource([".."] + x);
  }

  lemma ReduceUp(x: seq<string>)
    ensures Reduce([], [".."] + x, true) == Reduce([".."], x, true)
  {
    assert ([".."] + x)[1..] == x;
  }

  /** A relative path keeps one step up at its start, in front of names. */
  lemma StepUpStays(a: seq<string>)
    requires AllNames(a)
    ensures Parse(Spelled([".."] + a)) == Path([".."] + a, true, true)
  {
    NamePlain("..");
    RelativeParse([".."] + a);
    ReduceUp(a);
    ReduceNames([".."], a, true);
  }

  /** And behind it names and steps up can be left out as well. */
  lemma StepUpErasesBehind(a: seq<string>, c: string, x: seq<string>)
    requires AllNames(a) && Name(c) && AllPlain(x)
    ensures Parse(Spelled([".."] + (a + [c, ".."] + x))) == Parse(Spelled([".."] + (a + x)))
  {
    NamePlain(c);
    RelativeParse([".."] + (a + [c, ".."] + x));
    RelativeParse([".."] + (a + x));
    ReduceUp(a + [c, ".."] + x);
    ReduceUp(a + x);
    assert a + [c, ".."] + x == a + ([c, ".."] + x);
    ReduceAfter([".."], a, [c, ".."] + x, true);
    ReduceAfter([".."], a, x, true);
    ReduceStepUp([".."] + a, c, x, true);
  }

  /** But a second step up cancels the first. */
  lemma SecondStepUp(x: seq<string>)
    requires AllPlain(x)
    ensures Parse(Spelled(["..", ".."] + x)) == if x == [] then Path([], true, true) else Parse(Spelled(x))
  {
    var cs := ["..", ".."] + x;
    NamePlain("..");
    RelativeParse(cs);
    if x != [] { RelativeParse(x); }
    assert cs == [".."] + ([".."] + x) && ([".."] + x)[1..] == x && [".."][..0] == [];
    ReduceUp([".."] + x);
  }

  // ---- delimiters -------------------------------------------------------------

  lemma {:induction false} PiecesTrailing(c: string, rest: seq<string>)
    requires Plain(c) && AllPlain(rest)
    ensures Pieces(c + Joined(rest) + [DELIMITER]) == [c] + rest
    decreases |rest|
  {
    var s := c + Joined(rest) + [DELIMITER];
    if rest == [] {
      FindIn(c, "");
      assert s == c + ([DELIMITER] + "") && s[..|c|] == c && s[|c| + 1..] == "";
      assert [c] + rest == [c];
    } else {
      var t := rest[0] + Joined(rest[1..]) + [DELIMITER];
      PiecesTrailing(rest[0], rest[1..]);
      assert s == c + ([DELIMITER] + t);
      PiecesSplit(c, t);
      assert [rest[0]] + rest[1..] == rest;
    }
  }

  /** A delimiter at the end adds nothing. */
  lemma TrailingDelimiter(cs: seq<string>)
    requires cs != [] && AllPlain(cs)
    ensures Parse(Joined(cs) + [DELIMITER]) == Parse(Joined(cs)) && Parse(Spelled(cs) + [DELIMITER]) == Parse(Spelled(cs))
  {
    var t := cs[0] + Joined(cs[1..]) + [DELIMITER];
    PiecesTrailing(cs[0], cs[1..]);
    PiecesSplit("", t);
    assert Joined(cs) + [DELIMITER] == "" + ([DELIMITER] + t);
    assert [cs[0]] + cs[1..] == cs && ([""] + cs)[1..] == cs;
    AbsoluteParse(cs);
    RelativeParse(cs);
  }

  /** One that follows another stands for an empty component. */
  lemma DoubleDelimiter(a: seq<string>)
    requires a != [] && AllNames(a)
    ensures Parse([DELIMITER] + Joined(a)) == Path([""] + a, false, true)
  {
    var s := [DELIMITER] + Joined(a);
    JoinedPieces(a);
    PiecesSplit("", Joined(a));
    assert s == "" + ([DELIMITER] + Joined(a));
    var cs := [""] + ([""] + a);
    assert cs[1..] == [""] + a && ([""] + a)[1..] == a;
    ReduceNames([""], a, false);
    assert [] + [""] == [""];
  }

  // ---- relative paths ---------------------------------------------------------

  lemma {:induction false} CommonPush(d: seq<string>, s: seq<string>, x: string)
    ensures Common(d, s) <= Common(d, s + [x]) <= Common(d, s) + 1
    decreases |d|
  {
    if d != [] && s != [] && d[0] == s[0] {
      assert (s + [x])[1..] == s[1..] + [x];
      CommonPush(d[1..], s[1..], x);
    } else if s == [] && d != [] {
      assert (s + [x])[1..] == [];
      assert Common(d[1..], []) == 0;
    }
  }

  lemma {:induction false} CommonSelf(d: seq<string>)
    ensures Common(d, d) == |d|
    decreases |d|
  {
    if d != [] { CommonSelf(d[1..]); }
  }

  /** Every component moves by one step at most. */
  lemma {:induction false} StepsNeeded(stack: seq<string>, way: seq<string>, dest: seq<string>)
    requires Resolve(stack, way) == (dest, true)
    ensures |way| >= |stack| + |dest| - 2 * Common(dest, stack)
    decreases |way|
  {
    if way == [] {
      CommonSelf(dest);
    } else if way[0] == "." {
      StepsNeeded(stack, way[1..], dest);
    } else if way[0] == ".." {
      var s := stack[..|stack| - 1];
      StepsNeeded(s, way[1..], dest);
      CommonPush(dest, s, stack[|stack| - 1]);
      assert s + [stack[|stack| - 1]] == stack;
    } else {
      StepsNeeded(stack + [way[0]], way[1..], dest);
      CommonPush(dest, stack, way[0]);
    }
  }

  /** The relative path is as valid as its destination. */
  lemma RelativeKeepsValidity(src: Path, dest: Path, cwd: Path)
    requires !cwd.isRelative && !dest.isRelative
    ensures Relative(src, dest, cwd).isRelative && Relative(src, dest, cwd).isValid == dest.isValid
  {
  }

  lemma InvalidPrintsNothing(p: Path)
    requires !p.isValid
    ensures PathString(p) == "" && !Parse(PathString(p)).isValid
  {
  }

  /** No way from the source to the destination has fewer components than the relative path. */
  lemma RelativeIsShortest(src: Path, dest: Path, cwd: Path, way: seq<string>)
    requires !cwd.isRelative && !src.isRelative && !dest.isRelative
    requires Resolve(src.components, way) == (dest.components, true)
    ensures |Relative(src, dest, cwd).components| <= |way|
  {
    StepsNeeded(src.components, way, dest.components);
  }
}
