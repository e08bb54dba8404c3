/** File paths as lists of components: parsing, printing, simplifying and relative paths. */
module PathNames {
  import opened PathSlides

  const DELIMITER := '/'

  datatype Path = Path(components: seq<string>, isRelative: bool, isValid: bool)

  // ---- splitting a string -----------------------------------------------------

  /** Index of the first delimiter, or the length. */
  function Find(s: string): (n: nat)
    ensures n <= |s|
  {
    if s == "" || s[0] == DELIMITER then 0 else 1 + Find(s[1..])
  }

  lemma {:induction false} FindsFirst(s: string)
    ensures forall i :: 0 <= i < Find(s) ==> s[i] != DELIMITER
    ensures Find(s) < |s| ==> s[Find(s)] == DELIMITER
  {
    if s != "" && s[0] != DELIMITER { FindsFirst(s[1..]); }
  }

  /** The components between delimiters; a single last delimiter adds none. */
  function Pieces(s: string): seq<string>
    decreases |s|
  {
    if |s| <= 1 || Find(s) == |s| then (if s == "" || s == [DELIMITER] then [] else [s])
    else [s[..Find(s)]] + Pieces(s[Find(s) + 1..])
  }

  function DropLeading(parts: seq<string>): seq<string> {
    if parts != [] && parts[0] == "" then parts[1..] else parts
  }

  /** The component loop of DecomposePath, as a stack: what has been kept, and what is left. */
  function Reduce(kept: seq<string>, rest: seq<string>, isRelative: bool): (seq<string>, bool)
    decreases |rest|
  {
    if rest == [] then (kept, true)
    else if rest[0] == "." then Reduce(kept, rest[1..], isRelative)
    else if rest[0] == ".." then
      if kept != [] then Reduce(kept[..|kept| - 1], rest[1..], isRelative)
      else if !isRelative then (rest, false)
      else Reduce([".."], rest[1..], isRelative)
    else Reduce(kept + [rest[0]], rest[1..], isRelative)
  }

  predicate StartsRelative(s: string) { s == "" || s[0] != DELIMITER }

  /** CPath(const std::string &) */
  function Parse(s: string): Path {
    if s == "" then Path([], true, false)
    else
      var (components, ok) := Reduce([], DropLeading(Pieces(s)), StartsRelative(s));
      Path(components, StartsRelative(s), ok)
  }

  lemma PiecesStep(path: string, anchor: nat, at: nat)
    requires anchor + 1 < |path| && at == anchor + Find(path[anchor..]) < |path|
    ensures Pieces(path[anchor..]) == [path[anchor..at]] + Pieces(path[at + 1..])
  {
    assert path[anchor..][..at - anchor] == path[anchor..at];
    assert path[anchor..][at - anchor + 1..] == path[at + 1..];
  }

  lemma PiecesLast(s: string)
    requires |s| <= 1 || Find(s) == |s|
    ensures Pieces(s) == if s == "" || s == [DELIMITER] then [] else [s]
  {
  }

  lemma SplitMore(path: string, decomp: seq<string>, anchor: nat, at: nat, total: seq<string>)
    requires anchor + 1 < |path| && at == anchor + Find(path[anchor..]) < |path| && decomp + Pieces(path[anchor..]) == total
    ensures decomp + [path[anchor..at]] + Pieces(path[at + 1..]) == total
  {
    PiecesStep(path, anchor, at);
  }

  /** The first loop of DecomposePath, up to the last delimiter. */
  method SplitLeading(path: string) returns (decomp: seq<string>, anchor: nat)
    ensures anchor <= |path| && decomp + Pieces(path[anchor..]) == Pieces(path)
    ensures |path| - anchor <= 1 || Find(path[anchor..]) == |path| - anchor
  {
    decomp, anchor := [], 0;
    ghost var total := Pieces(path);
    assert path[0..] == path && [] + total == total;
    while anchor + 1 < |path|
      invariant anchor <= |path| && decomp + Pieces(path[anchor..]) == total
      decreases |path| - anchor
    {
      var at := anchor + Find(path[anchor..]);
      if at == |path| { return; }
      SplitMore(path, decomp, anchor, at, total);
      decomp := decomp + [path[anchor..at]];
      anchor := at + 1;
    }
  }

  /** With what follows the last delimiter. */
  method Split(path: string) returns (decomp: seq<string>)
    ensures decomp == Pieces(path)
  {
    var anchor;
    decomp, anchor := SplitLeading(path);
    PiecesLast(path[anchor..]);
    if anchor < |path| {
      var last := path[anchor..];
      if last != [DELIMITER] { decomp := decomp + [last]; }
    }
  }

  /** The second loop: erases "." and "..", with what they cancel. */
  method DropDots(parts: seq<string>, isRelative: bool) returns (ok: bool, decomp: seq<string>)
    ensures (decomp, ok) == Reduce([], parts, isRelative)
  {
    decomp := parts;
    var index := 0;
    while index < |decomp|
      invariant index <= |decomp|
      invariant Reduce(decomp[..index], decomp[index..], isRelative) == Reduce([], parts, isRelative)
      decreases |decomp| - index
    {
      ghost var kept, rest := decomp[..index], decomp[index..];
      if decomp[index] == "." {
        decomp := Erase(decomp, index);
        assert decomp[..index] == kept;
      } else if decomp[index] == ".." {
        if index > 0 {
          index := index - 1;
          decomp := Erase(decomp, index);
          decomp := Erase(decomp, index);
          assert decomp[..index] == kept[..|kept| - 1];
        } else if !isRelative {
          return false, decomp;
        } else {
          index := index + 1;
          assert decomp[..index] == [".."];
        }
      } else {
        index := index + 1;
        assert decomp[..index] == kept + [rest[0]];
      }
      assert decomp[index..] == rest[1..];
    }
    assert decomp[..index] == decomp;
    ok := true;
  }

  method DecomposePath(path: string) returns (ok: bool, decomp: seq<string>)
    ensures Parse(path) == Path(decomp, StartsRelative(path), ok)
  {
    if |path| == 0 { return false, []; }
    var isRelative := path[0] != DELIMITER;
    decomp := Split(path);
    if |decomp| > 0 && |decomp[0]| == 0 { decomp := decomp[1..]; }
    ok, decomp := DropDots(decomp, isRelative);
  }

  // ---- printing ---------------------------------------------------------------

  function Joined(components: seq<string>): string {
    if components == [] then "" else [DELIMITER] + (components[0] + Joined(components[1..]))
  }

  function PathString(p: Path): string {
    if !p.isValid then ""
    else if !p.isRelative then Joined(p.components)
    else if p.components == [] then ""
    else if p.components[0] != ".." then "." + Joined(p.components)
    else ".." + Joined(p.components[1..])
  }

  lemma JoinedStep(s: string, components: seq<string>, k: nat)
    requires k < |components|
    ensures s + Joined(components[k..]) == s + ([DELIMITER] + components[k]) + Joined(components[k + 1..])
  {
    assert components[k..][1..] == components[k + 1..];
  }

  method ToString(p: Path) returns (s: string)
    ensures s == PathString(p)
  {
    s := "";
    var start := 0;
    if !p.isValid { return; }
    if p.isRelative && |p.components| > 0 {
      if p.components[0] != ".." {
        s := ".";
      } else {
        s := "..";
        start := 1;
      }
    }
    while start < |p.components|
      invariant start <= |p.components|
      invariant s + Joined(p.components[start..]) == PathString(p)
    {
      JoinedStep(s, p.components, start);
      s := s + ([DELIMITER] + p.components[start]);
      start := start + 1;
    }
  }

  /** Non-empty and free of delimiters. */
  predicate Plain(c: string) { c != "" && DELIMITER !in c }

  predicate Name(c: string) { Plain(c) && c != "." && c != ".." }

  predicate AllPlain(cs: seq<string>) { forall i :: 0 <= i < |cs| ==> Plain(cs[i]) }

  predicate AllNames(cs: seq<string>) { forall i :: 0 <= i < |cs| ==> Name(cs[i]) }

  lemma {:induction false} FindIn(c: string, t: string)
    requires DELIMITER !in c
    ensures Find(c) == |c| && Find(c + ([DELIMITER] + t)) == |c|
    decreases |c|
  {
    if c == "" {
      assert c + ([DELIMITER] + t) == [DELIMITER] + t;
    } else {
      FindIn(c[1..], t);
      assert (c + ([DELIMITER] + t))[1..] == c[1..] + ([DELIMITER] + t);
    }
  }

  /** The first piece ends at the first delimiter. */
  lemma PiecesSplit(c: string, t: string)
    requires DELIMITER !in c && t != ""
    ensures Pieces(c + ([DELIMITER] + t)) == [c] + Pieces(t)
  {
    FindIn(c, t);
    var s := c + ([DELIMITER] + t);
    assert s[..|c|] == c && s[|c| + 1..] == t;
  }

  lemma PiecesOne(c: string)
    requires Plain(c)
    ensures Pieces(c) == [c]
  {
    FindIn(c, "");
  }

  /** Splitting what was joined. */
  lemma {:induction false} PiecesJoined(c: string, rest: seq<string>)
    requires Plain(c) && AllPlain(rest)
    ensures Pieces(c + Joined(rest)) == [c] + rest
    decreases |rest|
  {
    if rest == [] {
      PiecesOne(c);
      assert c + Joined(rest) == c && [c] + rest == [c];
    } else {
      var t := rest[0] + Joined(rest[1..]);
      PiecesJoined(rest[0], rest[1..]);
      PiecesSplit(c, t);
      assert [rest[0]] + rest[1..] == rest;
    }
  }

  lemma {:induction false} ReduceNames(kept: seq<string>, rest: seq<string>, isRelative: bool)
    requires AllNames(rest)
    ensures Reduce(kept, rest, isRelative) == (kept + rest, true)
    decreases |rest|
  {
    if rest != [] {
      ReduceNames(kept + [rest[0]], rest[1..], isRelative);
      assert kept + [rest[0]] + rest[1..] == kept + rest;
    } else {
      assert kept + rest == kept;
    }
  }

  lemma {:induction false} ReduceLength(kept: seq<string>, rest: seq<string>, isRelative: bool)
    ensures |Reduce(kept, rest, isRelative).0| <= |kept| + |rest|
    decreases |rest|
  {
    if rest != [] {
      if rest[0] == "." {
        ReduceLength(kept, rest[1..], isRelative);
      } else if rest[0] == ".." {
        if kept != [] {
          ReduceLength(kept[..|kept| - 1], rest[1..], isRelative);
        } else if isRelative {
          ReduceLength([".."], rest[1..], isRelative);
        }
      } else {
        ReduceLength(kept + [rest[0]], rest[1..], isRelative);
      }
    }
  }

  /** A valid path of `ups` steps up (none if absolute) and then names. */
  ghost predicate Normal(p: Path, ups: nat) {
    && p.isValid && ups <= |p.components| && (!p.isRelative ==> ups == 0)
    && (forall i :: 0 <= i < ups ==> p.components[i] == "..")
    && (forall i :: ups <= i < |p.components| ==> Name(p.components[i]))
  }

  lemma PlainDots()
    ensures Plain(".") && Plain("..")
  {
  }

  lemma JoinedPieces(c: seq<string>)
    requires c != [] && AllPlain(c)
    ensures Pieces(Joined(c)) == [""] + c && Joined(c) != "" && Joined(c)[0] == DELIMITER
  {
    var t := c[0] + Joined(c[1..]);
    PiecesJoined(c[0], c[1..]);
    PiecesSplit("", t);
    assert "" + Joined(c) == Joined(c);
    assert [c[0]] + c[1..] == c;
  }

  lemma AbsolutePieces(p: Path)
    requires Normal(p, 0) && !p.isRelative && p.components != []
    ensures Pieces(PathString(p)) == [""] + p.components
    ensures !StartsRelative(PathString(p))
  {
    JoinedPieces(p.components);
  }

  lemma RelativePieces(p: Path, ups: nat)
    requires Normal(p, ups) && p.isRelative && p.components != []
    ensures Pieces(PathString(p)) == if ups == 0 then ["."] + p.components else p.components
    ensures StartsRelative(PathString(p)) && PathString(p) != ""
  {
    PlainDots();
    var c := p.components;
    if ups == 0 { PiecesJoined(".", c); } else { PiecesJoined("..", c[1..]); }
  }

  /** Parsing what ToString prints gives the path back exactly when there is something to
      print and at most one step up: the root prints as nothing, and in "../.." the second step
      cancels the first. */
  lemma RoundTrip(p: Path, ups: nat)
    requires Normal(p, ups)
    ensures Parse(PathString(p)) == p <==> p.components != [] && ups <= 1
  {
    var c := p.components;
    if c != [] && !p.isRelative {
      AbsolutePieces(p);
      assert ([""] + c)[1..] == c;
      ReduceNames([], c, false);
    } else if c != [] {
      RelativePieces(p, ups);
      if ups == 0 {
        ReduceNames([], c, true);
        assert (["."] + c)[1..] == c;
      } else if ups == 1 {
        ReduceNames([".."], c[1..], true);
      } else {
        assert [".."][..0] == [] && c[1..][0] == "..";
        assert Reduce([], c, true) == Reduce([".."], c[1..], true) == Reduce([], c[1..][1..], true);
        ReduceLength([], c[1..][1..], true);
      }
    }
  }

  // ---- simplifying ------------------------------------------------------------

  function Simplify(src: Path, dest: Path): Path {
    var (components, ok) := SimplifyLoop(if dest.isRelative then src.components else [], dest.components, 0);
    Path(components, dest.isRelative && src.isRelative, ok)
  }

  method SimplifyPath(src: Path, dest: Path) returns (r: Path)
    ensures r == Simplify(src, dest)
  {
    var ret, isRelative := [], false;
    if dest.isRelative { ret, isRelative := src.components, src.isRelative; }
    ghost var start := ret;
    var rel := dest.components;
    var index := 0;
    while index < |rel|
      invariant index <= |rel|
      invariant SimplifyLoop(ret, rel, index) == SimplifyLoop(start, dest.components, 0)
      decreases 2 * |rel| - index
    {
      if rel[index] == "." {
        rel := rel[1..];
      } else if rel[index] == ".." {
        if index > 0 {
          index := index - 1;
          rel := Erase(rel, index);
          rel := Erase(rel, index);
        } else if |ret| > 0 {
          ret := ret[..|ret| - 1];
          rel := rel[1..];
        } else {
          return Path([], isRelative, false);
        }
      } else {
        index := index + 1;
      }
    }
    r := Path(ret + rel, isRelative, true);
  }

  function Resolved(src: Path, dest: Path): Path {
    var (components, ok) := Resolve(if dest.isRelative then src.components else [], dest.components);
    Path(components, dest.isRelative && src.isRelative, ok)
  }

  /** The parts of the result other than its components are always right, and its components
      are when every "." is undone; with names that all differ, only then. */
  lemma SimplifyExactly(src: Path, dest: Path)
    ensures var r, q := Simplify(src, dest), Resolved(src, dest);
      r.isValid == q.isValid && r.isRelative == q.isRelative && |r.components| == |q.components|
    ensures var ups := if dest.isRelative then |src.components| else 0;
      && (Undone(ups, 0, false, dest.components) ==> Simplify(src, dest) == Resolved(src, dest))
      && (Different(Names(dest.components)) ==>
            (Simplify(src, dest) == Resolved(src, dest) <==> Undone(ups, 0, false, dest.components)))
  {
    var base := if dest.isRelative then src.components else [];
    SimplifySlides(src, dest);
    SlideResolves(base, [], [], false, dest.components);
    assert base + [] == base && [] + Names(dest.components) == Names(dest.components);
    if Different(Names(dest.components)) && !Undone(|base|, 0, false, dest.components) {
      StaysWrong(base, [], [], false, dest.components);
    }
  }

  /** What depends on the "." and ".." alone: simplifying is right for every choice of the names
      between them exactly when every "." is undone. */
  lemma RightForAllNames(src: Path, dest: Path)
    ensures Undone(if dest.isRelative then |src.components| else 0, 0, false, dest.components) <==>
      forall cs :: SameShape(dest.components, cs) ==>
        Simplify(src, dest.(components := cs)) == Resolved(src, dest.(components := cs))
  {
    var ups := if dest.isRelative then |src.components| else 0;
    forall cs | SameShape(dest.components, cs) ensures Undone(ups, 0, false, dest.components) ==>
      Simplify(src, dest.(components := cs)) == Resolved(src, dest.(components := cs))
    {
      UndoneShape(ups, 0, false, dest.components, cs);
      SimplifyExactly(src, dest.(components := cs));
    }
    var named := Labelled(dest.components, 0);
    LabelledShape(dest.components, 0);
    LabelledDifferent(dest.components, 0);
    UndoneShape(ups, 0, false, dest.components, named);
    SimplifyExactly(src, dest.(components := named));
  }

  lemma SimplifySlides(src: Path, dest: Path)
    ensures var base := if dest.isRelative then src.components else [];
      var (components, ok) := Slide(base, [], dest.components);
      Simplify(src, dest) == Path(components, dest.isRelative && src.isRelative, ok)
  {
    var rel := dest.components;
    assert rel[..0] == [] && rel[0..] == rel;
    LoopSlides(if dest.isRelative then src.components else [], rel, 0);
  }

  /** On destinations without "." components, which parsing never leaves, SimplifyPath resolves
      the destination from the source. */
  lemma SimplifyResolves(src: Path, dest: Path)
    requires NoDot(dest.components)
    ensures var (components, ok) := Resolve(if dest.isRelative then src.components else [], dest.components);
      Simplify(src, dest) == Path(components, dest.isRelative && src.isRelative, ok)
  {
    NoDotsUndone(if dest.isRelative then |src.components| else 0, 0, dest.components);
    SimplifyExactly(src, dest);
  }

  /** A step up can undo a "." by leading out of all that was kept, or hide it between names
      that repeat. */
  lemma StepsUpHide(src: Path)
    ensures var dest := Path(["a", ".", ".."], true, true);
      Undone(|src.components|, 0, false, dest.components) && Simplify(src, dest) == Resolved(src, dest)
    ensures var dest := Path(["x", "x", ".", ".."], true, true);
      !Undone(|src.components|, 0, false, dest.components) && Simplify(src, dest) == Resolved(src, dest)
  {
    var ret := src.components;
    DotUndone(ret);
    SimplifyExactly(src, Path(["a", ".", ".."], true, true));
    SimplifySlides(src, Path(["x", "x", ".", ".."], true, true));
    DotHidden(ret);
  }

  /** What simplifying gives for a destination that steps up only at its start: as many of its
      components as it has names, from its end. */
  lemma DotsShift(src: Path, dest: Path, n: nat, cs: seq<string>)
    requires dest.components == Ups(n) + cs && NoUp(cs)
    ensures var base, isRelative := if dest.isRelative then src.components else [], dest.isRelative && src.isRelative;
      Simplify(src, dest) ==
      if n > |base| then Path([], isRelative, false)
      else Path(base[..|base| - n] + cs[|cs| - |WithoutDots(cs)|..], isRelative, true)
  {
    var base := if dest.isRelative then src.components else [];
    SimplifySlides(src, dest);
    SlideUps(base, n, cs);
    if n <= |base| { SlideTail(base[..|base| - n], [], cs); }
    assert [] + cs == cs;
  }

  /** It is right exactly when the path is invalid or every "." precedes the first name. */
  lemma DotsExactly(src: Path, dest: Path, n: nat, cs: seq<string>)
    requires dest.components == Ups(n) + cs && NoUp(cs)
    ensures var base, isRelative := if dest.isRelative then src.components else [], dest.isRelative && src.isRelative;
      && Resolved(src, dest) == (if n > |base| then Path([], isRelative, false)
                                 else Path(base[..|base| - n] + WithoutDots(cs), isRelative, true))
      && (Simplify(src, dest) == Resolved(src, dest) <==> n > |base| || LeadingDots(cs))
  {
    var base := if dest.isRelative then src.components else [];
    DotsShift(src, dest, n, cs);
    ResolveUps(base, n, cs);
    if n <= |base| {
      var top, tail := base[..|base| - n], cs[|cs| - |WithoutDots(cs)|..];
      ResolveNames(top, cs);
      TailIsNames(cs);
      assert (top + tail)[|top|..] == tail && (top + WithoutDots(cs))[|top|..] == WithoutDots(cs);
    }
  }

  lemma SimplifyNoDot(src: Path, dest: Path)
    requires NoDot(src.components) && NoDot(dest.components)
    ensures NoDot(Simplify(src, dest).components)
  {
    SimplifyResolves(src, dest);
    ResolveNoDot(if dest.isRelative then src.components else [], dest.components);
  }

  /** But neither operation looks at whether its source is valid.  The way from "/.." to what
      simplifying makes of "/../x/." is the path x/., and simplifying to that keeps the "." and
      loses the name. */
  lemma DotFromInvalidSource(src: Path, cwd: Path, x: string)
    requires !cwd.isRelative && Name(x)
    ensures var from, bad := Parse(Joined([".."])), Parse(Joined(["..", x, "."]));
      var dest := Relative(from, Simplify(bad, Parse(".")), cwd);
      && !from.isValid && !bad.isValid && dest == Path([x, "."], true, true)
      && Simplify(src, dest) == Path(src.components + ["."], src.isRelative, true)
      && Resolved(src, dest) == Path(src.components + [x], src.isRelative, true)
  {
    InvalidSource([".."]);
    DotLeft(x);
    ClimbFromAbove(x);
    DotKept(src, x);
  }

  lemma DotLeft(x: string)
    requires Name(x)
    ensures var bad := Parse(Joined(["..", x, "."]));
      !bad.isValid && Simplify(bad, Parse(".")) == Path(["..", x, "."], false, true)
  {
    InvalidSource(["..", x, "."]);
    CurrentDirectory();
  }

  lemma ClimbFromAbove(x: string)
    ensures Climb([".."], ["..", x, "."]) == [x, "."]
  {
    var from, to := [".."], ["..", x, "."];
    assert from[1..] == [] && to[1..] == [x, "."];
    assert Common(to, from) == 1 && Ups(0) + to[1..] == to[1..];
  }

  lemma DotKept(src: Path, x: string)
    requires Name(x)
    ensures var dest := Path([x, "."], true, true);
      && Simplify(src, dest) == Path(src.components + ["."], src.isRelative, true)
      && Resolved(src, dest) == Path(src.components + [x], src.isRelative, true)
  {
    var ret, cs := src.components, [x, "."];
    var dest := Path(cs, true, true);
    assert cs[1..] == ["."] && WithoutDots(cs) == [x] + WithoutDots(["."]) == [x];
    assert Ups(0) + cs == cs && ret[..|ret|] == ret;
    DotsShift(src, dest, 0, cs);
    DotsExactly(src, dest, 0, cs);
  }

  /** An absolute path that starts with a step up is invalid, and keeps what follows. */
  lemma InvalidSource(c: seq<string>)
    requires AllPlain(c) && c != [] && c[0] == ".."
    ensures Parse(Joined(c)) == Path(c, false, false)
  {
    JoinedPieces(c);
    assert ([""] + c)[1..] == c;
  }

  lemma CurrentDirectory()
    ensures Parse(".") == Path([], true, true)
  {
    PiecesOne(".");
    assert Reduce([], ["."], true) == Reduce([], [], true);
  }

  lemma {:induction false} ParseDropsDots(kept: seq<string>, rest: seq<string>, isRelative: bool)
    requires NoDot(kept) && Reduce(kept, rest, isRelative).1
    ensures NoDot(Reduce(kept, rest, isRelative).0)
    decreases |rest|
  {
    if rest != [] {
      if rest[0] == "." {
        ParseDropsDots(kept, rest[1..], isRelative);
      } else if rest[0] == ".." {
        if kept != [] {
          ParseDropsDots(kept[..|kept| - 1], rest[1..], isRelative);
        } else if isRelative {
          ParseDropsDots([".."], rest[1..], isRelative);
        }
      } else {
        ParseDropsDots(kept + [rest[0]], rest[1..], isRelative);
      }
    }
  }

  lemma ParsedHasNoDots(s: string)
    requires Parse(s).isValid
    ensures NoDot(Parse(s).components)
  {
    if s != "" { ParseDropsDots([], DropLeading(Pieces(s)), StartsRelative(s)); }
  }

  // ---- relative paths ---------------------------------------------------------

  /** Length of the longest common prefix. */
  function Common(a: seq<string>, b: seq<string>): (n: nat)
    ensures n <= |a| && n <= |b| && a[..n] == b[..n]
    ensures n < |a| && n < |b| ==> a[n] != b[n]
    decreases |a|
  {
    if a == [] || b == [] || a[0] != b[0] then 0
    else
      var n := Common(a[1..], b[1..]);
      assert a[..n + 1] == [a[0]] + a[1..][..n] && b[..n + 1] == [b[0]] + b[1..][..n];
      n + 1
  }

  lemma CommonRest(a: seq<string>, b: seq<string>)
    ensures b[..Common(a, b)] + a[Common(a, b)..] == a
  {
  }

  /** A step up for each component past the common prefix, then the rest of the destination. */
  function Climb(src: seq<string>, dest: seq<string>): seq<string> {
    var n := Common(dest, src);
    Ups(|src| - n) + dest[n..]
  }

  /** RelativePath; the current directory is absolute. */
  function Relative(src: Path, dest: Path, cwd: Path): Path
    requires !cwd.isRelative
    decreases src.isRelative
  {
    if src.isRelative then
      if dest.isRelative then Simplify(src, dest) else Relative(Simplify(cwd, src), dest, cwd)
    else Path(Climb(src.components, dest.components), true, dest.isValid)
  }

  method RelativePath(src: Path, dest: Path, cwd: Path) returns (r: Path)
    requires !cwd.isRelative
    ensures r == Relative(src, dest, cwd)
    decreases src.isRelative
  {
    if src.isRelative {
      if dest.isRelative {
        r := SimplifyPath(src, dest);
      } else {
        var from := SimplifyPath(cwd, src);
        r := RelativePath(from, dest, cwd);
      }
      return;
    }
    var components, base := DropCommon(dest.components, src.components);
    components := ClimbOut(components, base);
    r := Path(components, true, dest.isValid);
  }

  /** The first loop: erases equal heads. */
  method DropCommon(dest: seq<string>, src: seq<string>) returns (components: seq<string>, base: seq<string>)
    ensures var n := Common(dest, src); components == dest[n..] && base == src[n..]
  {
    components, base := dest, src;
    ghost var k := 0;
    while |components| > 0 && |base| > 0
      invariant k <= |dest| && k <= |src| && components == dest[k..] && base == src[k..]
      invariant k + Common(components, base) == Common(dest, src)
      decreases |base|
    {
      if components[0] != base[0] { break; }
      components, base, k := components[1..], base[1..], k + 1;
    }
  }

  /** The second loop: one step up for each component of the source that is left. */
  method ClimbOut(rest: seq<string>, src: seq<string>) returns (components: seq<string>)
    ensures components == Ups(|src|) + rest
  {
    components := rest;
    var base := src;
    while |base| > 0
      invariant |base| <= |src| && components == Ups(|src| - |base|) + rest
    {
      components := [".."] + components;
      base := base[1..];
    }
  }

  lemma {:induction false} RelativeNoDot(src: Path, dest: Path, cwd: Path)
    requires !cwd.isRelative && NoDot(src.components) && NoDot(dest.components) && NoDot(cwd.components)
    ensures NoDot(Relative(src, dest, cwd).components)
    decreases src.isRelative
  {
    if src.isRelative && dest.isRelative {
      SimplifyNoDot(src, dest);
    } else if src.isRelative {
      SimplifyNoDot(cwd, src);
      RelativeNoDot(Simplify(cwd, src), dest, cwd);
    } else {
      UpsOnly(|src.components| - Common(dest.components, src.components));
    }
  }

  predicate Normalised(components: seq<string>) {
    forall i :: 0 <= i < |components| ==> components[i] != "." && components[i] != ".."
  }

  lemma ResolveRelative(stack: seq<string>, n: nat, rest: seq<string>)
    requires n <= |stack| && Normalised(rest)
    ensures NoDot(Ups(n) + rest)
    ensures Resolve(stack, Ups(n) + rest) == (stack[..|stack| - n] + rest, true)
  {
    UpsOnly(n);
    ResolveUps(stack, n, rest);
    ResolveNames(stack[..|stack| - n], rest);
    WithoutDotsHasNone(rest);
  }

  /** A climb to a common prefix and down again. */
  lemma ResolveAt(src: seq<string>, dest: seq<string>, n: nat)
    requires n <= |src| && n <= |dest| && src[..n] + dest[n..] == dest && Normalised(dest)
    ensures NoDot(Ups(|src| - n) + dest[n..]) && Resolve(src, Ups(|src| - n) + dest[n..]) == (dest, true)
  {
    ResolveRelative(src, |src| - n, dest[n..]);
  }

  /** The components of the relative path resolve to those of the destination. */
  lemma ResolveClimb(src: seq<string>, dest: seq<string>)
    requires Normalised(dest)
    ensures NoDot(Climb(src, dest)) && Resolve(src, Climb(src, dest)) == (dest, true)
  {
    CommonRest(dest, src);
    ResolveAt(src, dest, Common(dest, src));
  }

  /** Following the relative path from the source leads to the destination. */
  lemma RelativeLeadsToDestination(src: Path, dest: Path, cwd: Path)
    requires !cwd.isRelative && !src.isRelative && !dest.isRelative && Normalised(dest.components)
    ensures Simplify(src, Relative(src, dest, cwd)) == Path(dest.components, false, true)
  {
    ResolveClimb(src.components, dest.components);
    SimplifyResolves(src, Relative(src, dest, cwd));
  }

  /** The same from a relative source, by way of the current directory. */
  lemma RelativeFromCurrentDirectory(src: Path, dest: Path, cwd: Path)
    requires !cwd.isRelative && src.isRelative && !dest.isRelative && Normalised(dest.components)
    ensures Simplify(Simplify(cwd, src), Relative(src, dest, cwd)) == Path(dest.components, false, true)
  {
    RelativeLeadsToDestination(Simplify(cwd, src), dest, cwd);
  }
}
