/**
 * The background rotation (`BGRotater`): an endless generator over the image
 * files of a directory (`getFiles`) and the timed change of the shown image
 * (`change`, `encourageChange`). The directory listing a pass reads and the
 * current time are parameters; the images handed to the display are logged.
 */
module BgRotater {
  import opened Wrappers
  import opened Arith

  /** `c.lower()` on one character, for ASCII letters. */
  function LowerChar(c: char): char
  {
    if 'A' <= c <= 'Z' then (c as int + 32) as char else c
  }

  function Lower(s: string): (r: string)
    ensures |r| == |s|
  {
    seq(|s|, i requires 0 <= i < |s| => LowerChar(s[i]))
  }

  /** Python's `t in s` on strings. */
  predicate Contains(s: string, t: string)
    decreases |s|
  {
    |t| <= |s| && (s[..|t|] == t || Contains(s[1..], t))
  }

  /** The filter of `getFiles`: the name mentions jpg or png in any letter case. */
  predicate IsImageName(f: string)
  {
    Contains(Lower(f), "jpg") || Contains(Lower(f), "png")
  }

  /** `os.path.join(dir, f)` for POSIX paths. */
  function Join(dir: string, f: string): string
  {
    if |f| > 0 && f[0] == '/' then f
    else if dir == [] || dir[|dir| - 1] == '/' then dir + f
    else dir + "/" + f
  }

  /** The names of one pass: the listed image names, in listing order. */
  function ImageNames(listing: seq<string>): seq<string>
  {
    if listing == [] then []
    else (if IsImageName(listing[0]) then [listing[0]] else []) + ImageNames(listing[1..])
  }

  /** Where the suspended generator stands: the names of its pass and the next position. */
  datatype FileCursor = FileCursor(pass: seq<string>, pos: nat)

  /** A generator that has not started yet. */
  function Unstarted(): FileCursor
  {
    FileCursor([], 0)
  }

  predicate ValidCursor(c: FileCursor)
  {
    c.pos <= |c.pass| && forall i :: 0 <= i < |c.pass| ==> IsImageName(c.pass[i])
  }

  /**
   * One step of the generator when a new pass would list `names`: the next
   * name of the current pass, or the first name of a new pass. With no
   * names the generator loops without yielding (None).
   */
  function Advance(c: FileCursor, dir: string, names: seq<string>): (r: (Option<string>, FileCursor))
  {
    if c.pos < |c.pass| then (Some(Join(dir, c.pass[c.pos])), c.(pos := c.pos + 1))
    else if names == [] then (None, FileCursor([], 0))
    else (Some(Join(dir, names[0])), FileCursor(names, 1))
  }

  /**
   * `next(allFiles)`, where a new pass reads the image names of `listing`:
   * each call yields the directory joined with an image name and leaves the
   * generator well formed; it yields nothing exactly when a new pass finds
   * no image.
   */
  function NextFile(c: FileCursor, dir: string, listing: seq<string>): (r: (Option<string>, FileCursor))
    ensures ValidCursor(c) ==> ValidCursor(r.1)
    ensures ValidCursor(c) && r.0.Some? ==> exists f :: IsImageName(f) && r.0.value == Join(dir, f)
    ensures ValidCursor(c) ==> (r.0.None? <==> c.pos == |c.pass| && ImageNames(listing) == [])
  {
    ImageNamesAreImages(listing);
    assert ValidCursor(c) && c.pos < |c.pass| ==> IsImageName(c.pass[c.pos]);
    assert ImageNames(listing) != [] ==> IsImageName(ImageNames(listing)[0]);
    Advance(c, dir, ImageNames(listing))
  }

  /** The values of `n` calls of `next` while every new pass lists `names`. */
  function Outputs(c: FileCursor, dir: string, names: seq<string>, n: nat): (out: seq<Option<string>>)
    ensures |out| == n
    decreases n
  {
    if n == 0 then []
    else
      var r := Advance(c, dir, names);
      [r.0] + Outputs(r.1, dir, names, n - 1)
  }

  /** A pass keeps exactly the listed image names. */
  lemma {:induction false} ImageNamesMembers(listing: seq<string>, f: string)
    ensures f in ImageNames(listing) <==> f in listing && IsImageName(f)
  {
    if listing != [] {
      ImageNamesMembers(listing[1..], f);
      assert listing == [listing[0]] + listing[1..];
    }
  }

  lemma {:induction false} ImageNamesAreImages(listing: seq<string>)
    ensures forall i :: 0 <= i < |ImageNames(listing)| ==> IsImageName(ImageNames(listing)[i])
  {
    forall i | 0 <= i < |ImageNames(listing)|
      ensures IsImageName(ImageNames(listing)[i])
    {
      ImageNamesMembers(listing, ImageNames(listing)[i]);
    }
  }

  lemma {:induction false} ContainsAfterPrefix(pre: string, s: string, t: string)
    requires Contains(s, t)
    ensures Contains(pre + s, t)
    decreases |pre|
  {
    if pre != [] {
      ContainsAfterPrefix(pre[1..], s, t);
      var ps := pre + s;
      assert ps[1..] == pre[1..] + s;
      assert Contains(ps[1..], t);
      assert |t| <= |ps|;
    } else {
      assert pre + s == s;
    }
  }

  /** A joined path ends with the name it joins. */
  lemma JoinEndsWithName(dir: string, f: string)
    ensures exists pre :: Join(dir, f) == pre + f
  {
    if |f| > 0 && f[0] == '/' {
      assert Join(dir, f) == [] + f;
    } else if dir == [] || dir[|dir| - 1] == '/' {
      assert Join(dir, f) == dir + f;
    } else {
      assert Join(dir, f) == (dir + "/") + f;
    }
  }

  /** Every yielded path mentions jpg or png, in any letter case. */
  lemma YieldedPathIsImage(dir: string, f: string)
    requires IsImageName(f)
    ensures Contains(Lower(Join(dir, f)), "jpg") || Contains(Lower(Join(dir, f)), "png")
  {
    JoinEndsWithName(dir, f);
    var pre :| Join(dir, f) == pre + f;
    assert Lower(pre + f) == Lower(pre) + Lower(f);
    if Contains(Lower(f), "jpg") {
      ContainsAfterPrefix(Lower(pre), Lower(f), "jpg");
    } else {
      ContainsAfterPrefix(Lower(pre), Lower(f), "png");
    }
  }

  /** The value of call `i` (counting from 0) while every new pass lists `names`. */
  function NthOutput(c: FileCursor, dir: string, names: seq<string>, i: nat): Option<string>
    decreases i
  {
    var r := Advance(c, dir, names);
    if i == 0 then r.0 else NthOutput(r.1, dir, names, i - 1)
  }

  /** The calls in order are the single calls. */
  lemma {:induction false} OutputsAreNth(c: FileCursor, dir: string, names: seq<string>, n: nat, i: nat)
    requires i < n
    ensures Outputs(c, dir, names, n)[i] == NthOutput(c, dir, names, i)
    decreases i
  {
    if i > 0 {
      var next := Advance(c, dir, names).1;
      OutputsAreNth(next, dir, names, n - 1, i - 1);
      assert Outputs(c, dir, names, n)[i] == Outputs(next, dir, names, n - 1)[i - 1];
    }
  }

  /** Position `x` of an endless repetition of a pass of `k` names. */
  function Wrap(x: nat, k: nat): (r: nat)
    requires k > 0
    ensures r < k
  {
    x % k
  }

  /** Where a pass starts over, the position is 0 or the pass length, which lands on the same name. */
  lemma RestartIndex(pos: nat, k: nat, i: nat)
    requires k > 0 && (pos == 0 || pos == k)
    ensures Wrap(pos + i, k) == Wrap(i, k)
  {
    if pos == k {
      ModAddDivisor(i, k);
      assert i + k == pos + i;
    }
  }

  /** The cursor's position after one call, counted `i - 1` further, names the same place as `i` from the start. */
  lemma StepIndex(pos: nat, len: nat, k: nat, i: nat, next: nat)
    requires k > 0 && i > 0 && pos <= len && (len == k || len == 0)
    requires next == if pos == len then 1 else pos + 1
    ensures Wrap(next + (i - 1), k) == Wrap(pos + i, k)
  {
    if pos == len {
      RestartIndex(pos, k, i);
    } else {
      assert next + (i - 1) == pos + i;
    }
  }

  /** The first call yields the name at the cursor, or the first name when a new pass starts. */
  lemma FirstOutput(c: FileCursor, dir: string, names: seq<string>)
    requires names != []
    requires c.pos <= |c.pass| && (c.pass == names || c.pass == [])
    ensures NthOutput(c, dir, names, 0) == Some(Join(dir, names[Wrap(c.pos, |names|)]))
  {
    var k := |names|;
    if c.pos == |c.pass| {
      RestartIndex(c.pos, k, 0);
      assert Wrap(c.pos, k) == 0;
    } else {
      DivModUnique(c.pos, k, 0, c.pos);
      assert c.pass == names;
    }
  }

  /** After a call the cursor is still at the start or inside a pass over `names`. */
  lemma AdvanceStaysInPass(c: FileCursor, dir: string, names: seq<string>)
    requires names != []
    requires c.pos <= |c.pass| && (c.pass == names || c.pass == [])
    ensures var next := Advance(c, dir, names).1;
      next.pos <= |next.pass| && (next.pass == names || next.pass == [])
  {
  }

  /**
   * From a cursor at the start or inside a pass over `names`, call `i`
   * yields the name `i` places on from the cursor, wrapping around to the
   * start of `names`.
   */
  lemma {:induction false} NthCycles(c: FileCursor, dir: string, names: seq<string>, i: nat)
    requires names != []
    requires c.pos <= |c.pass| && (c.pass == names || c.pass == [])
    ensures NthOutput(c, dir, names, i) == Some(Join(dir, names[Wrap(c.pos + i, |names|)]))
    decreases i
  {
    if i == 0 {
      FirstOutput(c, dir, names);
    } else {
      var next := Advance(c, dir, names).1;
      AdvanceStaysInPass(c, dir, names);
      NthCycles(next, dir, names, i - 1);
      StepIndex(c.pos, |c.pass|, |names|, i, next.pos);
    }
  }

  /** Call `i` of `n`, from a cursor at the start or inside a pass. */
  lemma OutputAt(c: FileCursor, dir: string, names: seq<string>, n: nat, i: nat)
    requires names != [] && i < n
    requires c.pos <= |c.pass| && (c.pass == names || c.pass == [])
    ensures Outputs(c, dir, names, n)[i] == Some(Join(dir, names[Wrap(c.pos + i, |names|)]))
  {
    OutputsAreNth(c, dir, names, n, i);
    NthCycles(c, dir, names, i);
  }

  /** All of the first `n` calls, from a cursor at the start or inside a pass. */
  lemma OutputsCycle(c: FileCursor, dir: string, names: seq<string>, n: nat)
    requires names != []
    requires c.pos <= |c.pass| && (c.pass == names || c.pass == [])
    ensures forall i :: 0 <= i < n ==> Outputs(c, dir, names, n)[i] == Some(Join(dir, names[(c.pos + i) % |names|]))
  {
    forall i | 0 <= i < n
      ensures Outputs(c, dir, names, n)[i] == Some(Join(dir, names[Wrap(c.pos + i, |names|)]))
    {
      OutputAt(c, dir, names, n, i);
    }
  }

  /**
   * With the directory unchanged, a fresh generator yields the image files
   * in listing order, over and over.
   */
  lemma FilesCycleInListingOrder(dir: string, listing: seq<string>, n: nat)
    requires ImageNames(listing) != []
    ensures var names := ImageNames(listing);
      forall i :: 0 <= i < n ==> Outputs(Unstarted(), dir, names, n)[i] == Some(Join(dir, names[i % |names|]))
  {
    var names := ImageNames(listing);
    forall i | 0 <= i < n
      ensures Outputs(Unstarted(), dir, names, n)[i] == Some(Join(dir, names[Wrap(i, |names|)]))
    {
      OutputAt(Unstarted(), dir, names, n, i);
    }
  }

  /** `encourageChange`'s test: rotation is on and the interval has passed since the last change. */
  predicate ChangeDue(interval: int, lastChange: int, now: int)
  {
    interval > 0 && now > lastChange + interval
  }

  class BGRotater {
    const imgdir: string
    const interval: int
    var lastChange: int
    var allFiles: FileCursor
    var shown: seq<string>     // the paths passed to the display's setImg, in order

    ghost predicate Valid()
      reads this
    {
      ValidCursor(allFiles)
    }

    constructor (imgdir: string, interval: int)
      ensures this.imgdir == imgdir && this.interval == interval
      ensures lastChange == 0 && allFiles == Unstarted() && shown == [] && Valid()
    {
      this.imgdir := imgdir;
      this.interval := interval;
      lastChange := 0;
      allFiles := Unstarted();
      shown := [];
    }

    /** `change`: stamps the time, then shows the generator's next file. */
    method Change(now: int, listing: seq<string>)
      requires Valid()
      modifies this
      ensures Valid() && lastChange == now
      ensures var r := NextFile(old(allFiles), imgdir, listing);
        allFiles == r.1 && shown == old(shown) + (if r.0.Some? then [r.0.value] else [])
    {
      lastChange := now;
      var r := NextFile(allFiles, imgdir, listing);
      allFiles := r.1;
      if r.0.Some? {
        shown := shown + [r.0.value];
      }
    }

    /** `encourageChange`: changes the image only when a change is due; never when the interval is not positive. */
    method EncourageChange(now: int, listing: seq<string>)
      requires Valid()
      modifies this
      ensures Valid()
      ensures !ChangeDue(interval, old(lastChange), now) ==>
        lastChange == old(lastChange) && allFiles == old(allFiles) && shown == old(shown)
      ensures interval <= 0 ==> lastChange == old(lastChange) && allFiles == old(allFiles) && shown == old(shown)
      ensures ChangeDue(interval, old(lastChange), now) ==>
        var r := NextFile(old(allFiles), imgdir, listing);
        lastChange == now && allFiles == r.1 && shown == old(shown) + (if r.0.Some? then [r.0.value] else [])
    {
      if ChangeDue(interval, lastChange, now) {
        Change(now, listing);
      }
    }
  }
}
