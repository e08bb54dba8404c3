/** The loop of SimplifyPath, on lists of components.

    The source erases from the destination in place, and at a "." it erases the first component
    instead of the one it looks at.  SimplifyLoop is that loop as it stands.  Slide is the same
    with what the loop has passed kept apart, as a queue whose front is what a "." erases and
    whose back is what ".." erases.  Resolve is what simplifying means: a stack of components
    that ".." pops and "." leaves alone.  The two never differ in how many components they keep,
    so that all depends on whether what is kept is what it should be.  Undone says when it is in
    spite of every "."; with names that all differ it is not otherwise, because the first
    component that should be there has gone and never comes back.  Where there are no steps up
    but at the start, Slide keeps the last components, as many as there are names. */
module PathSlides {

  function Erase<T>(s: seq<T>, i: nat): (r: seq<T>)
    requires i < |s|
    ensures |r| == |s| - 1
  {
    s[..i] + s[i + 1..]
  }

  /** The loop of SimplifyPath: (components, valid). */
  function SimplifyLoop(ret: seq<string>, rel: seq<string>, index: nat): (seq<string>, bool)
    requires index <= |rel|
    decreases 2 * |rel| - index
  {
    if index == |rel| then (ret + rel, true)
    else if rel[index] == "." then SimplifyLoop(ret, rel[1..], index)
    else if rel[index] == ".." then
      if index > 0 then SimplifyLoop(ret, Erase(Erase(rel, index - 1), index - 1), index - 1)
      else if ret != [] then SimplifyLoop(ret[..|ret| - 1], rel[1..], 0)
      else ([], false)
    else SimplifyLoop(ret, rel, index + 1)
  }

  /** What simplifying means: a stack of components that ".." pops and "." leaves alone. */
  function Resolve(stack: seq<string>, rest: seq<string>): (seq<string>, bool)
    decreases |rest|
  {
    if rest == [] then (stack, true)
    else if rest[0] == "." then Resolve(stack, rest[1..])
    else if rest[0] == ".." then
      if stack == [] then ([], false) else Resolve(stack[..|stack| - 1], rest[1..])
    else Resolve(stack + [rest[0]], rest[1..])
  }

  /** The loop of SimplifyPath with what it has passed as a stack of its own.  A "." met after
      something has been kept takes the place of the last and pushes out the first. */
  function Slide(ret: seq<string>, kept: seq<string>, rest: seq<string>): (seq<string>, bool)
    decreases |rest|
  {
    if rest == [] then (ret + kept, true)
    else if rest[0] == "." then Slide(ret, if kept == [] then [] else kept[1..] + ["."], rest[1..])
    else if rest[0] == ".." then
      if kept != [] then Slide(ret, kept[..|kept| - 1], rest[1..])
      else if ret != [] then Slide(ret[..|ret| - 1], [], rest[1..])
      else ([], false)
    else Slide(ret, kept + [rest[0]], rest[1..])
  }

  lemma EraseTwice(rel: seq<string>, index: nat)
    requires 0 < index < |rel|
    ensures var s := Erase(Erase(rel, index - 1), index - 1);
      |s| == |rel| - 2 && s[..index - 1] == rel[..index - 1] && s[index - 1..] == rel[index + 1..]
  {
    var e := Erase(rel, index - 1);
    assert e[..index - 1] == rel[..index - 1] && e[index..] == rel[index + 1..];
    var s := Erase(e, index - 1);
    assert s[..index - 1] == rel[..index - 1] && s[index - 1..] == rel[index + 1..];
  }

  lemma EraseFirst(rel: seq<string>, index: nat)
    requires index < |rel| && rel[index] == "."
    ensures rel[1..][..index] == if index == 0 then [] else rel[..index][1..] + ["."]
    ensures rel[1..][index..] == rel[index + 1..]
  {
  }

  lemma {:induction false} LoopSlides(ret: seq<string>, rel: seq<string>, index: nat)
    requires index <= |rel|
    ensures SimplifyLoop(ret, rel, index) == Slide(ret, rel[..index], rel[index..])
    decreases 2 * |rel| - index
  {
    if index == |rel| {
      assert rel[..index] == rel;
    } else {
      assert rel[index..][0] == rel[index] && rel[index..][1..] == rel[index + 1..];
      if rel[index] == "." {
        EraseFirst(rel, index);
        LoopSlides(ret, rel[1..], index);
      } else if rel[index] == ".." {
        if index > 0 {
          EraseTwice(rel, index);
          assert rel[..index][..index - 1] == rel[..index - 1];
          LoopSlides(ret, Erase(Erase(rel, index - 1), index - 1), index - 1);
        } else if ret != [] {
          LoopSlides(ret[..|ret| - 1], rel[1..], 0);
        }
      } else {
        assert rel[..index + 1] == rel[..index] + [rel[index]];
        LoopSlides(ret, rel, index + 1);
      }
    }
  }

  predicate NoDot(cs: seq<string>) { forall i :: 0 <= i < |cs| ==> cs[i] != "." }

  /** The components that count. */
  function WithoutDots(cs: seq<string>): (r: seq<string>)
    ensures |r| <= |cs|
  {
    if cs == [] then [] else (if cs[0] == "." then [] else [cs[0]]) + WithoutDots(cs[1..])
  }

  lemma {:induction false} WithoutDotsHasNone(cs: seq<string>)
    ensures NoDot(WithoutDots(cs)) && (|WithoutDots(cs)| == |cs| <==> NoDot(cs)) && (NoDot(cs) ==> WithoutDots(cs) == cs)
  {
    if cs != [] {
      WithoutDotsHasNone(cs[1..]);
      assert cs == [cs[0]] + cs[1..];
    }
  }

  /** Every "." that follows a name is undone: later steps up lead out of all that was kept.
      `ret` and `kept` count what is left of the source and what is kept; `wrong` says that
      something kept is not what it should be.  Once the path is invalid nothing matters. */
  predicate Undone(ret: nat, kept: nat, wrong: bool, rest: seq<string>)
    decreases |rest|
  {
    if rest == [] then !wrong
    else if rest[0] == "." then Undone(ret, kept, wrong || kept > 0, rest[1..])
    else if rest[0] == ".." then
      if kept > 0 then Undone(ret, kept - 1, wrong && kept > 1, rest[1..])
      else ret == 0 || Undone(ret - 1, 0, false, rest[1..])
    else Undone(ret, kept + 1, wrong, rest[1..])
  }

  /** Validity and the number of components are always right, and with every "." undone the
      components are. */
  lemma {:induction false} SlideResolves(ret: seq<string>, kept: seq<string>, good: seq<string>, wrong: bool, rest: seq<string>)
    requires |kept| == |good| && (wrong || kept == good)
    ensures var (r, ok), (q, fine) := Slide(ret, kept, rest), Resolve(ret + good, rest);
      ok == fine && |r| == |q| && (Undone(|ret|, |kept|, wrong, rest) ==> r == q)
    decreases |rest|
  {
    if rest != [] {
      if rest[0] == "." {
        SlideResolves(ret, if kept == [] then [] else kept[1..] + ["."], good, wrong || kept != [], rest[1..]);
      } else if rest[0] == ".." {
        UpResolves(ret, kept, good, wrong, rest);
      } else {
        assert ret + good + [rest[0]] == ret + (good + [rest[0]]);
        SlideResolves(ret, kept + [rest[0]], good + [rest[0]], wrong, rest[1..]);
      }
    }
  }

  lemma {:induction false} UpResolves(ret: seq<string>, kept: seq<string>, good: seq<string>, wrong: bool, rest: seq<string>)
    requires rest != [] && rest[0] == ".." && |kept| == |good| && (wrong || kept == good)
    ensures var (r, ok), (q, fine) := Slide(ret, kept, rest), Resolve(ret + good, rest);
      ok == fine && |r| == |q| && (Undone(|ret|, |kept|, wrong, rest) ==> r == q)
    decreases |rest|, 0
  {
    var stack := ret + good;
    if kept != [] {
      assert stack[..|stack| - 1] == ret + good[..|good| - 1];
      SlideResolves(ret, kept[..|kept| - 1], good[..|good| - 1], wrong && |kept| > 1, rest[1..]);
    } else if ret != [] {
      assert stack[..|stack| - 1] == ret[..|ret| - 1] + [];
      SlideResolves(ret[..|ret| - 1], [], [], false, rest[1..]);
    }
  }

  predicate IsDots(c: string) { c == "." || c == ".." }

  function Names(cs: seq<string>): seq<string> {
    if cs == [] then [] else (if IsDots(cs[0]) then [] else [cs[0]]) + Names(cs[1..])
  }

  predicate Different(cs: seq<string>) { forall i, j :: 0 <= i < j < |cs| ==> cs[i] != cs[j] }

  predicate NoUp(cs: seq<string>) { forall i :: 0 <= i < |cs| ==> cs[i] != ".." }

  lemma DifferentParts(a: seq<string>, b: seq<string>)
    requires Different(a + b)
    ensures a != [] ==> a[0] !in a[1..] && Different(a[..|a| - 1] + b)
    ensures a != [] && b != [] ==> a[0] != b[0]
  {
    var ab := a + b;
    if a != [] {
      assert forall k :: 1 <= k < |ab| ==> ab[0] != ab[k];
      assert forall k :: 1 <= k < |a| ==> a[k] == ab[k];
      assert forall k :: 0 <= k < |b| ==> b[k] == ab[|a| + k];
      var s := a[..|a| - 1] + b;
      forall i, j | 0 <= i < j < |s| ensures s[i] != s[j] {
        assert s[i] == ab[if i < |a| - 1 then i else i + 1] && s[j] == ab[if j < |a| - 1 then j else j + 1];
      }
    }
  }

  /** The first component that should be there is not. */
  predicate Astray(kept: seq<string>, good: seq<string>, wrong: bool) {
    |kept| == |good| && (if wrong then kept != [] && good[0] !in kept else kept == good)
  }

  lemma AstrayPops(kept: seq<string>, good: seq<string>, wrong: bool)
    requires Astray(kept, good, wrong) && kept != []
    ensures Astray(kept[..|kept| - 1], good[..|good| - 1], wrong && |kept| > 1)
  {
  }

  lemma NamesPop(rest: seq<string>)
    requires rest != [] && rest[0] == ".."
    ensures Names(rest) == Names(rest[1..])
  {
  }

  lemma UndonePops(ret: nat, kept: nat, wrong: bool, rest: seq<string>)
    requires rest != [] && rest[0] == ".." && !Undone(ret, kept, wrong, rest)
    ensures kept > 0 ==> !Undone(ret, kept - 1, wrong && kept > 1, rest[1..])
    ensures kept == 0 ==> ret > 0 && !Undone(ret - 1, 0, false, rest[1..])
  {
  }

  lemma AstrayGrows(kept: seq<string>, good: seq<string>, wrong: bool, c: string)
    requires Astray(kept, good, wrong) && (good != [] ==> good[0] != c)
    ensures Astray(kept + [c], good + [c], wrong)
  {
  }

  lemma AstrayDot(kept: seq<string>, good: seq<string>, wrong: bool)
    requires Astray(kept, good, wrong) && NoDot(good) && (good != [] ==> good[0] !in good[1..])
    ensures Astray(if kept == [] then [] else kept[1..] + ["."], good, wrong || kept != [])
  {
  }

  lemma PushBoth(ret: seq<string>, kept: seq<string>, good: seq<string>, rest: seq<string>)
    requires rest != [] && !IsDots(rest[0])
    ensures Slide(ret, kept, rest) == Slide(ret, kept + [rest[0]], rest[1..])
    ensures Resolve(ret + good, rest) == Resolve(ret + (good + [rest[0]]), rest[1..])
  {
    assert ret + good + [rest[0]] == ret + (good + [rest[0]]);
  }

  lemma NamesPush(good: seq<string>, rest: seq<string>)
    requires rest != [] && !IsDots(rest[0])
    ensures Names(rest) != [] && Names(rest)[0] == rest[0]
    ensures good + Names(rest) == good + [rest[0]] + Names(rest[1..])
  {
    assert Names(rest) == [rest[0]] + Names(rest[1..]);
    PushOne(good, rest[0], Names(rest[1..]));
  }

  /** And it never comes back. */
  lemma {:induction false} StaysWrong(ret: seq<string>, kept: seq<string>, good: seq<string>, wrong: bool, rest: seq<string>)
    requires Astray(kept, good, wrong)
    requires Different(good + Names(rest)) && NoDot(good) && !Undone(|ret|, |kept|, wrong, rest)
    ensures Slide(ret, kept, rest).0 != Resolve(ret + good, rest).0
    decreases |rest|
  {
    DifferentParts(good, Names(rest));
    if rest == [] {
      assert (ret + kept)[|ret|] == kept[0] && (ret + good)[|ret|] == good[0];
    } else if rest[0] == "." {
      AstrayDot(kept, good, wrong);
      assert Names(rest) == Names(rest[1..]);
      StaysWrong(ret, if kept == [] then [] else kept[1..] + ["."], good, wrong || kept != [], rest[1..]);
    } else if rest[0] == ".." {
      StaysWrongUp(ret, kept, good, wrong, rest);
    } else {
      PushBoth(ret, kept, good, rest);
      NamesPush(good, rest);
      AstrayGrows(kept, good, wrong, rest[0]);
      StaysWrong(ret, kept + [rest[0]], good + [rest[0]], wrong, rest[1..]);
    }
  }

  lemma {:induction false} StaysWrongUp(ret: seq<string>, kept: seq<string>, good: seq<string>, wrong: bool, rest: seq<string>)
    requires rest != [] && rest[0] == ".."
    requires Astray(kept, good, wrong)
    requires Different(good + Names(rest)) && NoDot(good) && !Undone(|ret|, |kept|, wrong, rest)
    ensures Slide(ret, kept, rest).0 != Resolve(ret + good, rest).0
    decreases |rest|, 0
  {
    NamesPop(rest);
    UndonePops(|ret|, |kept|, wrong, rest);
    if kept != [] {
      DifferentParts(good, Names(rest[1..]));
      AstrayPops(kept, good, wrong);
      StaysWrong(ret, kept[..|kept| - 1], good[..|good| - 1], wrong && |kept| > 1, rest[1..]);
      PopBoth(ret, kept, good, rest);
    } else {
      StaysWrong(ret[..|ret| - 1], [], [], false, rest[1..]);
      PopSource(ret, rest);
    }
  }

  lemma PopBoth(ret: seq<string>, kept: seq<string>, good: seq<string>, rest: seq<string>)
    requires kept != [] && good != [] && rest != [] && rest[0] == ".."
    ensures Slide(ret, kept, rest) == Slide(ret, kept[..|kept| - 1], rest[1..])
    ensures Resolve(ret + good, rest) == Resolve(ret + good[..|good| - 1], rest[1..])
  {
    SlidePops(ret, kept, rest);
    ResolvePops(ret + good, rest);
    assert (ret + good)[..|ret + good| - 1] == ret + good[..|good| - 1];
  }

  lemma PopSource(ret: seq<string>, rest: seq<string>)
    requires ret != [] && rest != [] && rest[0] == ".."
    ensures Slide(ret, [], rest) == Slide(ret[..|ret| - 1], [], rest[1..])
    ensures Resolve(ret + [], rest) == Resolve(ret[..|ret| - 1] + [], rest[1..])
  {
    ResolvePops(ret + [], rest);
    assert (ret + [])[..|ret + []| - 1] == ret[..|ret| - 1] + [];
  }

  predicate SameShape(a: seq<string>, b: seq<string>) {
    |a| == |b| && forall i :: 0 <= i < |a| ==> (IsDots(a[i]) || IsDots(b[i]) ==> a[i] == b[i])
  }

  lemma {:induction false} UndoneShape(ret: nat, kept: nat, wrong: bool, a: seq<string>, b: seq<string>)
    requires SameShape(a, b)
    ensures Undone(ret, kept, wrong, a) <==> Undone(ret, kept, wrong, b)
    decreases |a|
  {
    if a != [] {
      assert IsDots(a[0]) || IsDots(b[0]) ==> a[0] == b[0];
      if a[0] == "." {
        UndoneShape(ret, kept, wrong || kept > 0, a[1..], b[1..]);
      } else if a[0] == ".." {
        if kept > 0 {
          UndoneShape(ret, kept - 1, wrong && kept > 1, a[1..], b[1..]);
        } else if ret > 0 {
          UndoneShape(ret - 1, 0, false, a[1..], b[1..]);
        }
      } else {
        UndoneShape(ret, kept + 1, wrong, a[1..], b[1..]);
      }
    }
  }

  /** Names told apart by their lengths. */
  function Label(k: nat): string { seq(k + 3, _ => 'x') }

  function Labelled(cs: seq<string>, k: nat): seq<string>
    decreases |cs|
  {
    if cs == [] then [] else [if IsDots(cs[0]) then cs[0] else Label(k)] + Labelled(cs[1..], k + 1)
  }

  lemma {:induction false} LabelledShape(cs: seq<string>, k: nat)
    ensures SameShape(cs, Labelled(cs, k))
    decreases |cs|
  {
    if cs != [] {
      LabelledShape(cs[1..], k + 1);
      assert cs == [cs[0]] + cs[1..];
    }
  }

  lemma {:induction false} LabelledDifferent(cs: seq<string>, k: nat)
    ensures Different(Names(Labelled(cs, k))) && forall c :: c in Names(Labelled(cs, k)) ==> |c| >= k + 3
    decreases |cs|
  {
    if cs != [] {
      LabelledDifferent(cs[1..], k + 1);
      var rest := Names(Labelled(cs[1..], k + 1));
      NamesFirst(Labelled(cs, k)[0], Labelled(cs[1..], k + 1));
      assert forall i :: 0 <= i < |rest| ==> rest[i] in rest;
    }
  }

  lemma NamesFirst(c: string, cs: seq<string>)
    ensures Names([c] + cs) == (if IsDots(c) then [] else [c]) + Names(cs)
  {
    assert ([c] + cs)[1..] == cs;
  }

  lemma {:induction false} NoDotsUndone(ret: nat, kept: nat, rest: seq<string>)
    requires NoDot(rest)
    ensures Undone(ret, kept, false, rest)
    decreases |rest|
  {
    if rest != [] && rest[0] == ".." {
      if kept > 0 {
        NoDotsUndone(ret, kept - 1, rest[1..]);
      } else if ret > 0 {
        NoDotsUndone(ret - 1, 0, rest[1..]);
      }
    } else if rest != [] {
      NoDotsUndone(ret, kept + 1, rest[1..]);
    }
  }

  lemma DotUndone(ret: seq<string>)
    ensures Undone(|ret|, 0, false, ["a", ".", ".."])
  {
    assert Undone(|ret|, 0, false, ["a", ".", ".."]) == Undone(|ret|, 1, false, [".", ".."]) == Undone(|ret|, 1, true, [".."]);
  }

  lemma StepName(ret: seq<string>, kept: seq<string>, c: string, rest: seq<string>)
    requires c != "." && c != ".."
    ensures Slide(ret, kept, [c] + rest) == Slide(ret, kept + [c], rest)
    ensures Resolve(ret + kept, [c] + rest) == Resolve(ret + (kept + [c]), rest)
    ensures Undone(|ret|, |kept|, false, [c] + rest) == Undone(|ret|, |kept| + 1, false, rest)
  {
    assert ([c] + rest)[1..] == rest && ret + kept + [c] == ret + (kept + [c]);
  }

  lemma DotHidden(ret: seq<string>)
    ensures !Undone(|ret|, 0, false, ["x", "x", ".", ".."])
    ensures Slide(ret, [], ["x", "x", ".", ".."]) == Resolve(ret, ["x", "x", ".", ".."])
  {
    StepName(ret, [], "x", ["x", ".", ".."]);
    StepName(ret, ["x"], "x", [".", ".."]);
    DotThenUp(ret, "x");
    assert ret + [] == ret;
  }

  lemma DotThenUp(ret: seq<string>, x: string)
    ensures Slide(ret, [x, x], [".", ".."]) == Resolve(ret + [x, x], [".", ".."])
    ensures !Undone(|ret|, 2, false, [".", ".."])
  {
    assert [".", ".."][1..] == [".."];
    assert Slide(ret, [x, x], [".", ".."]) == Slide(ret, [x, x][1..] + ["."], [".."]);
    assert Undone(|ret|, 2, false, [".", ".."]) == Undone(|ret|, 2, true, [".."]) == Undone(|ret|, 1, true, []);
    UpLast(ret, [x, x][1..] + ["."], [x, x], [".", ".."][1..]);
  }

  lemma UpLast(ret: seq<string>, kept: seq<string>, good: seq<string>, rest: seq<string>)
    requires |kept| == |good| == 2 && kept[0] == good[0] && |rest| == 1 && rest[0] == ".."
    ensures Slide(ret, kept, rest) == Resolve(ret + good, rest)
  {
    var stack := ret + good;
    SlidePops(ret, kept, rest);
    ResolvePops(stack, rest);
    assert ret + kept[..1] == stack[..|stack| - 1];
  }

  lemma SlidePops(ret: seq<string>, kept: seq<string>, rest: seq<string>)
    requires kept != [] && rest != [] && rest[0] == ".."
    ensures Slide(ret, kept, rest) == Slide(ret, kept[..|kept| - 1], rest[1..])
    ensures |rest| == 1 ==> Slide(ret, kept, rest) == (ret + kept[..|kept| - 1], true)
  {
  }

  lemma ResolvePops(stack: seq<string>, rest: seq<string>)
    requires stack != [] && rest != [] && rest[0] == ".."
    ensures Resolve(stack, rest) == Resolve(stack[..|stack| - 1], rest[1..])
    ensures |rest| == 1 ==> Resolve(stack, rest) == (stack[..|stack| - 1], true)
  {
  }

  // ---- steps up first, as relative paths have them ------------------------------

  function Ups(n: nat): (u: seq<string>)
    ensures |u| == n
  {
    if n == 0 then [] else [".."] + Ups(n - 1)
  }

  lemma {:induction false} UpsOnly(n: nat)
    ensures forall i :: 0 <= i < n ==> Ups(n)[i] == ".."
  {
    if n > 0 { UpsOnly(n - 1); }
  }

  lemma {:induction false} SlideUps(ret: seq<string>, n: nat, rest: seq<string>)
    ensures Slide(ret, [], Ups(n) + rest) == if n <= |ret| then Slide(ret[..|ret| - n], [], rest) else ([], false)
    decreases n
  {
    if n == 0 {
      assert Ups(n) + rest == rest && ret[..|ret| - n] == ret;
    } else {
      assert (Ups(n) + rest)[1..] == Ups(n - 1) + rest;
      if ret != [] { SlideUps(ret[..|ret| - 1], n - 1, rest); }
      assert n <= |ret| ==> ret[..|ret| - 1][..|ret| - n] == ret[..|ret| - n];
    }
  }

  /** Without further steps up, as many components are kept as there are names, from the end. */
  lemma {:induction false} SlideTail(ret: seq<string>, kept: seq<string>, rest: seq<string>)
    requires NoUp(rest)
    ensures Slide(ret, kept, rest) == (ret + (kept + rest)[|rest| - |WithoutDots(rest)|..], true)
    decreases |rest|
  {
    if rest == [] {
      assert (kept + rest)[0..] == kept;
    } else if rest[0] == "." {
      var next := if kept == [] then [] else kept[1..] + ["."];
      SlideTail(ret, next, rest[1..]);
      assert next + rest[1..] == (kept + rest)[1..];
    } else {
      SlideTail(ret, kept + [rest[0]], rest[1..]);
      assert kept + [rest[0]] + rest[1..] == kept + rest;
    }
  }

  lemma {:induction false} DotsBefore(cs: seq<string>, i: nat)
    requires i <= |cs| && NoDot(cs[i..])
    ensures |cs| - |WithoutDots(cs)| <= i
    decreases |cs|
  {
    WithoutDotsHasNone(cs);
    if i > 0 {
      assert cs[1..][i - 1..] == cs[i..];
      DotsBefore(cs[1..], i - 1);
    } else {
      assert cs[0..] == cs;
    }
  }

  /** Every "." precedes the first name. */
  predicate LeadingDots(cs: seq<string>) { forall i, j :: 0 <= i < j < |cs| && cs[j] == "." ==> cs[i] == "." }

  lemma {:induction false} TailIsNames(cs: seq<string>)
    ensures cs[|cs| - |WithoutDots(cs)|..] == WithoutDots(cs) <==> LeadingDots(cs)
    decreases |cs|
  {
    var d := |cs| - |WithoutDots(cs)|;
    WithoutDotsHasNone(cs);
    if cs != [] && cs[0] == "." {
      TailIsNames(cs[1..]);
      assert cs[d..] == cs[1..][d - 1..] && cs == [cs[0]] + cs[1..];
    } else if d > 0 {
      assert !NoDot(cs);
      if NoDot(cs[d..]) {
        assert cs[1..][d - 1..] == cs[d..];
        DotsBefore(cs[1..], d - 1);
      }
    } else {
      assert cs[0..] == cs;
    }
  }

  lemma {:induction false} ResolveUps(stack: seq<string>, n: nat, rest: seq<string>)
    ensures Resolve(stack, Ups(n) + rest) == if n <= |stack| then Resolve(stack[..|stack| - n], rest) else ([], false)
    decreases n
  {
    if n == 0 {
      assert Ups(n) + rest == rest && stack[..|stack| - n] == stack;
    } else {
      assert (Ups(n) + rest)[1..] == Ups(n - 1) + rest;
      if stack != [] { ResolveUps(stack[..|stack| - 1], n - 1, rest); }
      assert n <= |stack| ==> stack[..|stack| - 1][..|stack| - n] == stack[..|stack| - n];
    }
  }

  lemma PushOne(stack: seq<string>, c: string, rest: seq<string>)
    ensures stack + [c] + rest == stack + ([c] + rest)
  {
  }

  lemma {:induction false} ResolveNames(stack: seq<string>, rest: seq<string>)
    requires NoUp(rest)
    ensures Resolve(stack, rest) == (stack + WithoutDots(rest), true)
    decreases |rest|
  {
    if rest != [] && rest[0] == "." {
      assert WithoutDots(rest) == WithoutDots(rest[1..]);
      ResolveNames(stack, rest[1..]);
    } else if rest != [] {
      assert WithoutDots(rest) == [rest[0]] + WithoutDots(rest[1..]);
      PushOne(stack, rest[0], WithoutDots(rest[1..]));
      ResolveNames(stack + [rest[0]], rest[1..]);
    } else {
      assert stack + [] == stack;
    }
  }

  lemma {:induction false} ResolveNoDot(stack: seq<string>, rest: seq<string>)
    requires NoDot(stack) && NoDot(rest)
    ensures NoDot(Resolve(stack, rest).0)
    decreases |rest|
  {
    if rest != [] {
      if rest[0] != ".." {
        ResolveNoDot(stack + [rest[0]], rest[1..]);
      } else if stack != [] {
        ResolveNoDot(stack[..|stack| - 1], rest[1..]);
      }
    }
  }
}
