/** Directories and path resolution in the file server (fs/fs.c): `dir_lookup`, `dir_alloc_file`,
    `walk_path`, `file_create` and `file_remove`. A file record is identified by its place: the
    root, or a slot of a directory. */
module Paths {
  import opened Options

  const MAXNAMELEN: nat := 128
  const FILE2BLK: nat := 16
  const NINDIRECT: nat := 1024

  datatype Id = Root | Slot(dir: Id, k: nat)

  /** The fields that matter here; `nblk` is f_size / BY2BLK. */
  datatype Rec = Rec(name: string, isDir: bool, nblk: nat)

  /** The records by place. A place that is not in the map reads as zeros. */
  type Recs = map<Id, Rec>

  function R(recs: Recs, x: Id): Rec { if x in recs then recs[x] else Rec("", false, 0) }

  // ----- path strings -----

  function SkipSlash(s: string): (r: string)
    ensures |r| <= |s| && (r != "" ==> r[0] != '/')
  {
    if s != "" && s[0] == '/' then SkipSlash(s[1..]) else s
  }

  /** The length of the component that starts the string. */
  function NameLen(s: string): (n: nat)
    ensures n <= |s|
    ensures n < |s| ==> s[n] == '/'
    ensures forall i | 0 <= i < n :: s[i] != '/'
  {
    if s == "" || s[0] == '/' then 0 else 1 + NameLen(s[1..])
  }

  /** The components of a path: its maximal slash-free parts. */
  function Comps(s: string): (c: seq<string>)
    decreases |s|
  {
    var t := SkipSlash(s);
    if t == "" then [] else [t[..NameLen(t)]] + Comps(t[NameLen(t)..])
  }

  predicate IsName(n: string) { n != "" && '/' !in n }

  lemma {:induction false} CompsAreNames(s: string)
    ensures forall i | 0 <= i < |Comps(s)| :: IsName(Comps(s)[i])
    decreases |s|
  {
    var t := SkipSlash(s);
    if t != "" {
      CompsAreNames(t[NameLen(t)..]);
      assert IsName(t[..NameLen(t)]);
    }
  }

  function Join(names: seq<string>): string {
    if names == [] then "" else "/" + names[0] + Join(names[1..])
  }

  /** Splitting undoes joining, for every list of names. */
  lemma {:induction false} CompsOfJoin(names: seq<string>)
    requires forall i | 0 <= i < |names| :: IsName(names[i])
    ensures Comps(Join(names)) == names
  {
    if names != [] {
      CompsOfJoin(names[1..]);
      CompsFirst(names[0], Join(names[1..]));
    }
  }

  lemma CompsFirst(n: string, rest: string)
    requires IsName(n) && (rest != "" ==> rest[0] == '/')
    ensures Comps("/" + n + rest) == [n] + Comps(rest)
  {
    var s, t := "/" + n + rest, n + rest;
    assert s[1..] == t;
    assert t[0] == n[0] && n[0] in n;
    assert SkipSlash(s) == t;
    NameLenOf(n, rest);
    assert t[..|n|] == n && t[|n|..] == rest;
  }

  lemma {:induction false} NameLenOf(n: string, rest: string)
    requires '/' !in n && (rest != "" ==> rest[0] == '/')
    ensures NameLen(n + rest) == |n|
  {
    if n != "" {
      assert (n + rest)[1..] == n[1..] + rest;
      NameLenOf(n[1..], rest);
    }
  }

  // ----- lookup -----

  /** The first slot from `k` on that carries the name. */
  function FindFrom(recs: Recs, d: Id, name: string, k: nat): (r: Option<nat>)
    ensures r.Some? ==> k <= r.value < FILE2BLK * R(recs, d).nblk && R(recs, Slot(d, r.value)).name == name
    ensures r.Some? ==> forall j: nat | k <= j < r.value :: R(recs, Slot(d, j)).name != name
    ensures r.None? ==> forall j: nat | k <= j < FILE2BLK * R(recs, d).nblk :: R(recs, Slot(d, j)).name != name
    decreases FILE2BLK * R(recs, d).nblk - k
  {
    if k >= FILE2BLK * R(recs, d).nblk then None
    else if R(recs, Slot(d, k)).name == name then Some(k)
    else FindFrom(recs, d, name, k + 1)
  }

  /** What a walk ends with: a file and its directory, a missing last component and the directory
      it is missing from, or an error. `Missing(None)` is -E_NOT_FOUND before the last component. */
  datatype Outcome =
    | Found(dir: Option<Id>, file: Id)
    | Missing(parent: Option<Id>, last: string)
    | BadPath
    | NoSpace
    | Inval

  /** Component-wise lookup from `cur`, reached through `dir`. */
  function Resolve(recs: Recs, dir: Option<Id>, cur: Id, comps: seq<string>): Outcome
    decreases |comps|
  {
    if comps == [] then Found(dir, cur)
    else if |comps[0]| >= MAXNAMELEN then BadPath
    else if !R(recs, cur).isDir then Missing(None, "")
    else
      match FindFrom(recs, cur, comps[0], 0)
      case Some(k) => Resolve(recs, Some(cur), Slot(cur, k), comps[1..])
      case None => if |comps| == 1 then Missing(Some(cur), comps[0]) else Missing(None, "")
  }

  function Open(recs: Recs, path: string): Outcome { Resolve(recs, None, Root, Comps(path)) }

  /** A walk never yields a free slot. */
  lemma {:induction false} NeverFree(recs: Recs, dir: Option<Id>, cur: Id, comps: seq<string>)
    requires forall i | 0 <= i < |comps| :: IsName(comps[i])
    ensures var r := Resolve(recs, dir, cur, comps);
            r.Found? && comps != [] ==> R(recs, r.file).name == comps[|comps| - 1] != ""
    decreases |comps|
  {
    if comps != [] && |comps[0]| < MAXNAMELEN && R(recs, cur).isDir {
      match FindFrom(recs, cur, comps[0], 0)
      case Some(k) =>
        NeverFree(recs, Some(cur), Slot(cur, k), comps[1..]);
        assert IsName(comps[0]);
      case None =>
    }
  }

  // ----- which path leads where -----

  /** The names on the way from the root to a place. */
  function Names(recs: Recs, x: Id): seq<string> {
    if x.Root? then [] else Names(recs, x.dir) + [R(recs, x).name]
  }

  /** Each place on the way is the first of its directory with its name, which is not too long, and each but the
      last is a directory. */
  predicate Reachable(recs: Recs, x: Id) {
    x.Slot? ==>
      && Reachable(recs, x.dir) && R(recs, x.dir).isDir && |R(recs, x).name| < MAXNAMELEN
      && FirstOf(recs, x.dir, R(recs, x).name, x.k)
  }

  predicate FirstOf(recs: Recs, d: Id, name: string, k: nat) {
    && k < FILE2BLK * R(recs, d).nblk && R(recs, Slot(d, k)).name == name
    && forall j: nat | j < k :: R(recs, Slot(d, j)).name != name
  }

  lemma FindIsFirst(recs: Recs, d: Id, name: string, k: nat)
    ensures FindFrom(recs, d, name, 0) == Some(k) <==> FirstOf(recs, d, name, k)
  {
  }

  /** The outcome of a walk with one component more. */
  lemma {:induction false} ResolveMore(recs: Recs, dir: Option<Id>, cur: Id, comps: seq<string>, n: string)
    ensures var r, r' := Resolve(recs, dir, cur, comps), Resolve(recs, dir, cur, comps + [n]);
            match r
            case Found(_, x) =>
              if |n| >= MAXNAMELEN then r' == BadPath
              else if !R(recs, x).isDir then r' == Missing(None, "")
              else
                (match FindFrom(recs, x, n, 0)
                 case Some(k) => r' == Found(Some(x), Slot(x, k))
                 case None => r' == Missing(Some(x), n))
            case Missing(_, _) => r' == Missing(None, "")
            case _ => r' == r
    decreases |comps|
  {
    if comps == [] {
      LastOne(recs, dir, cur, n);
      assert comps + [n] == [n];
    } else {
      assert (comps + [n])[0] == comps[0] && (comps + [n])[1..] == comps[1..] + [n];
      if |comps[0]| < MAXNAMELEN && R(recs, cur).isDir {
        var k := FindFrom(recs, cur, comps[0], 0);
        if k.Some? { ResolveMore(recs, Some(cur), Slot(cur, k.value), comps[1..], n); }
      }
    }
  }

  lemma LastOne(recs: Recs, dir: Option<Id>, cur: Id, n: string)
    ensures Resolve(recs, dir, cur, [n]) ==
            if |n| >= MAXNAMELEN then BadPath
            else if !R(recs, cur).isDir then Missing(None, "")
            else match FindFrom(recs, cur, n, 0)
                 case Some(k) => Found(Some(cur), Slot(cur, k))
                 case None => Missing(Some(cur), n)
  {
    assert [n][1..] == [];
  }

  /** A walk finds a file if and only if its components are the names on the way there. */
  lemma {:induction false} FoundIff(recs: Recs, comps: seq<string>, x: Id)
    ensures var r := Resolve(recs, None, Root, comps);
            (r.Found? && r.file == x) <==> Reachable(recs, x) && Names(recs, x) == comps
    ensures Resolve(recs, None, Root, comps).Found? && comps != [] ==>
              Resolve(recs, None, Root, comps).file.Slot?
              && Resolve(recs, None, Root, comps).dir == Some(Resolve(recs, None, Root, comps).file.dir)
    decreases |comps|
  {
    if comps != [] {
      var front, n := comps[..|comps| - 1], comps[|comps| - 1];
      assert front + [n] == comps;
      ResolveMore(recs, None, Root, front, n);
      if x.Slot? {
        FoundIff(recs, front, x.dir);
        FindIsFirst(recs, x.dir, n, x.k);
        LastName(recs, x, front, n);
      } else {
        FoundIff(recs, front, x);
      }
    }
  }

  lemma LastName(recs: Recs, x: Id, front: seq<string>, n: string)
    requires x.Slot?
    ensures Names(recs, x) == front + [n] <==> Names(recs, x.dir) == front && R(recs, x).name == n
  {
    var names := Names(recs, x);
    if names == front + [n] {
      assert names[..|names| - 1] == Names(recs, x.dir) && names[|names| - 1] == R(recs, x).name;
      assert (front + [n])[..|front|] == front;
    }
  }

  /** Opening a path gives a file if and only if the file can be reached and the path's components are the names on
      the way; so every file that can be reached is opened by its own path. */
  lemma OpenIff(recs: Recs, path: string, x: Id)
    ensures (Open(recs, path).Found? && Open(recs, path).file == x) <==>
            Reachable(recs, x) && Names(recs, x) == Comps(path)
  {
    FoundIff(recs, Comps(path), x);
  }

  /** It is missing from a directory, where it could be created, if and only if all but the last component lead to
      that directory, and the last one is not too long and is not the name of any of its entries. */
  lemma MissingIff(recs: Recs, path: string, d: Id, last: string)
    ensures Open(recs, path) == Missing(Some(d), last) <==>
            && Reachable(recs, d) && R(recs, d).isDir && Comps(path) == Names(recs, d) + [last]
            && |last| < MAXNAMELEN && forall k: nat | k < FILE2BLK * R(recs, d).nblk :: R(recs, Slot(d, k)).name != last
  {
    var comps := Comps(path);
    if comps != [] {
      var front, n := comps[..|comps| - 1], comps[|comps| - 1];
      assert front + [n] == comps;
      ResolveMore(recs, None, Root, front, n);
      FoundIff(recs, front, d);
      assert comps == Names(recs, d) + [last] <==> front == Names(recs, d) && n == last by {
        assert (Names(recs, d) + [last])[..|Names(recs, d)|] == Names(recs, d);
      }
    }
  }

  /** -E_BAD_PATH if and only if a component is too long that comes after components which lead somewhere. */
  lemma {:induction false} BadPathIff(recs: Recs, comps: seq<string>)
    ensures Resolve(recs, None, Root, comps) == BadPath <==>
            exists i: nat :: i < |comps| && |comps[i]| >= MAXNAMELEN && Resolve(recs, None, Root, comps[..i]).Found?
    decreases |comps|
  {
    if comps != [] {
      var front, n := comps[..|comps| - 1], comps[|comps| - 1];
      assert front + [n] == comps;
      ResolveMore(recs, None, Root, front, n);
      BadPathIff(recs, front);
      forall i: nat | i <= |front| ensures comps[..i] == front[..i] {
      }
      assert front[..|front|] == front;
      if Resolve(recs, None, Root, front) == BadPath {
        var i: nat :| i < |front| && |front[i]| >= MAXNAMELEN && Resolve(recs, None, Root, front[..i]).Found?;
        assert comps[i] == front[i];
      }
      if i: nat :| i < |comps| && |comps[i]| >= MAXNAMELEN && Resolve(recs, None, Root, comps[..i]).Found? {
        assert i < |front| ==> front[i] == comps[i];
      }
    }
  }

  // ----- the places a walk visits -----

  predicate UnderEq(x: Id, f: Id) { x == f || (x.Slot? && UnderEq(x.dir, f)) }

  /** The walk reaches `f`, at its end or on the way. */
  predicate Passes(recs: Recs, cur: Id, comps: seq<string>, f: Id)
    decreases |comps|
  {
    || cur == f
    || (comps != [] && |comps[0]| < MAXNAMELEN && R(recs, cur).isDir
        && match FindFrom(recs, cur, comps[0], 0)
           case Some(k) => Passes(recs, Slot(cur, k), comps[1..], f)
           case None => false)
  }

  /** `less` is `full` without the file `f`: its name is gone and what lies under it may differ,
      and its directory may lack slots that are free in `full`. */
  ghost predicate Without(full: Recs, less: Recs, f: Id) {
    && f.Slot? && R(less, f).name == ""
    && (forall x | !UnderEq(x, f) :: R(less, x).name == R(full, x).name && R(less, x).isDir == R(full, x).isDir)
    && (forall x | !UnderEq(x, f) :: R(less, x).nblk <= R(full, x).nblk)
    && (forall x, k: nat | !UnderEq(x, f) && FILE2BLK * R(less, x).nblk <= k < FILE2BLK * R(full, x).nblk ::
          Slot(x, k) == f || R(full, Slot(x, k)).name == "")
  }

  function Depth(x: Id): nat { if x.Root? then 0 else 1 + Depth(x.dir) }

  lemma {:induction false} UnderDepth(x: Id, f: Id)
    ensures UnderEq(x, f) ==> x == f || Depth(x) > Depth(f)
  {
    if x.Slot? && x != f { UnderDepth(x.dir, f); }
  }

  /** In one directory the two states find the same slot, unless it is `f`. */
  lemma SameFind(full: Recs, less: Recs, f: Id, d: Id, name: string)
    requires Without(full, less, f) && !UnderEq(d, f) && name != ""
    ensures var r := FindFrom(full, d, name, 0);
            (r.Some? && Slot(d, r.value) == f) || FindFrom(less, d, name, 0) == r
  {
    var r, r' := FindFrom(full, d, name, 0), FindFrom(less, d, name, 0);
    if !(r.Some? && Slot(d, r.value) == f) {
      forall k: nat | Slot(d, k) != f ensures R(less, Slot(d, k)).name == R(full, Slot(d, k)).name {
        assert !UnderEq(Slot(d, k), f);
      }
      if r.Some? {
        assert R(less, Slot(d, r.value)).name == name;
        assert r.value < FILE2BLK * R(less, d).nblk;
      }
      if r'.Some? {
        assert Slot(d, r'.value) != f;
        assert R(full, Slot(d, r'.value)).name == name;
      }
    }
  }

  /** Every walk that does not pass through `f` ends the same in both states. */
  lemma {:induction false} OthersResolve(full: Recs, less: Recs, f: Id, dir: Option<Id>, cur: Id, comps: seq<string>)
    requires Without(full, less, f) && !UnderEq(cur, f) && !Passes(full, cur, comps, f)
    requires forall i | 0 <= i < |comps| :: IsName(comps[i])
    ensures Resolve(less, dir, cur, comps) == Resolve(full, dir, cur, comps)
    decreases |comps|
  {
    if comps != [] && |comps[0]| < MAXNAMELEN && R(full, cur).isDir {
      assert IsName(comps[0]);
      SameFind(full, less, f, cur, comps[0]);
      match FindFrom(full, cur, comps[0], 0)
      case Some(k) =>
        assert Slot(cur, k) != f;
        OthersResolve(full, less, f, Some(cur), Slot(cur, k), comps[1..]);
      case None =>
    }
  }

  // ----- file_create -----

  /** Slots beyond a directory's size carry no name: a block newly used for a directory reads as
      zeros. */
  ghost predicate Tidy(recs: Recs) {
    forall d: Id, k: nat | k >= FILE2BLK * R(recs, d).nblk :: R(recs, Slot(d, k)).name == ""
  }

  /** `dir_alloc_file`: the first free slot, or the first slot of a new block. */
  function NewSlot(recs: Recs, d: Id): nat {
    match FindFrom(recs, d, "", 0)
    case Some(k) => k
    case None => FILE2BLK * R(recs, d).nblk
  }

  function Grown(recs: Recs, d: Id): Recs {
    if FindFrom(recs, d, "", 0).Some? then recs
    else recs[d := R(recs, d).(nblk := R(recs, d).nblk + 1)]
  }

  function Created(recs: Recs, d: Id, name: string): Recs {
    var f, g := Slot(d, NewSlot(recs, d)), Grown(recs, d);
    g[f := R(g, f).(name := name)]
  }

  lemma SlotIsDeeper(d: Id, k: nat)
    ensures !UnderEq(d, Slot(d, k)) && d != Slot(d, k)
  {
    UnderDepth(d, Slot(d, k));
    assert Depth(Slot(d, k)) == Depth(d) + 1;
  }

  lemma CreatedWithout(recs: Recs, d: Id, name: string)
    requires Tidy(recs)
    ensures Without(Created(recs, d, name), recs, Slot(d, NewSlot(recs, d)))
  {
    var f, recs' := Slot(d, NewSlot(recs, d)), Created(recs, d, name);
    SlotIsDeeper(d, NewSlot(recs, d));
    forall x | !UnderEq(x, f)
      ensures R(recs, x).name == R(recs', x).name && R(recs, x).isDir == R(recs', x).isDir
      ensures R(recs, x).nblk <= R(recs', x).nblk && (x != d ==> R(recs, x) == R(recs', x))
    {
    }
  }

  lemma {:induction false} MissingBelow(recs: Recs, dir: Option<Id>, cur: Id, comps: seq<string>, d: Id, last: string)
    requires Resolve(recs, dir, cur, comps) == Missing(Some(d), last)
    ensures UnderEq(d, cur) && FindFrom(recs, d, last, 0).None? && |comps| > 0 && last == comps[|comps| - 1]
    ensures R(recs, d).isDir && |last| < MAXNAMELEN
    decreases |comps|
  {
    match FindFrom(recs, cur, comps[0], 0)
    case Some(k) =>
      MissingBelow(recs, Some(cur), Slot(cur, k), comps[1..], d, last);
      UnderParent(d, cur, k);
    case None =>
  }

  lemma {:induction false} UnderParent(x: Id, d: Id, k: nat)
    requires UnderEq(x, Slot(d, k))
    ensures UnderEq(x, d)
  {
    if x != Slot(d, k) { UnderParent(x.dir, d, k); }
  }

  lemma {:induction false} CreateResolves(full: Recs, less: Recs, dir: Option<Id>, cur: Id, comps: seq<string>,
                                          d: Id, k: nat, last: string)
    requires Without(full, less, Slot(d, k)) && k < FILE2BLK * R(full, d).nblk && R(full, Slot(d, k)).name == last != ""
    requires Resolve(less, dir, cur, comps) == Missing(Some(d), last)
    requires forall i | 0 <= i < |comps| :: IsName(comps[i])
    ensures Resolve(full, dir, cur, comps) == Found(Some(d), Slot(d, k))
    decreases |comps|
  {
    var f := Slot(d, k);
    MissingBelow(less, dir, cur, comps, d, last);
    UnderDepth(d, cur);
    UnderDepth(cur, f);
    assert Depth(f) == Depth(d) + 1;
    assert !UnderEq(cur, f);
    assert IsName(comps[0]);
    SameFind(full, less, f, cur, comps[0]);
    match FindFrom(less, cur, comps[0], 0)
    case Some(j) =>
      CreateResolves(full, less, Some(cur), Slot(cur, j), comps[1..], d, k, last);
    case None =>
      assert comps[1..] == [] && FindFrom(full, d, last, 0) != None;
  }

  /** After `file_create` the path opens to the new file. */
  lemma CreateThenOpen(recs: Recs, path: string, d: Id, name: string)
    requires Tidy(recs) && Open(recs, path) == Missing(Some(d), name)
    ensures Open(Created(recs, d, name), path) == Found(Some(d), Slot(d, NewSlot(recs, d)))
  {
    CompsAreNames(path);
    CreatedWithout(recs, d, name);
    MissingBelow(recs, None, Root, Comps(path), d, name);
    var comps := Comps(path);
    assert IsName(comps[|comps| - 1]);
    SlotIsDeeper(d, NewSlot(recs, d));
    CreateResolves(Created(recs, d, name), recs, None, Root, comps, d, NewSlot(recs, d), name);
  }

  /** Paths that do not pass through the new file resolve as before. */
  lemma CreateOthers(recs: Recs, d: Id, name: string, path: string)
    requires Tidy(recs) && !Passes(Created(recs, d, name), Root, Comps(path), Slot(d, NewSlot(recs, d)))
    ensures Open(Created(recs, d, name), path) == Open(recs, path)
  {
    CompsAreNames(path);
    CreatedWithout(recs, d, name);
    OthersResolve(Created(recs, d, name), recs, Slot(d, NewSlot(recs, d)), None, Root, Comps(path));
  }

  // ----- file_remove -----

  /** `file_truncate(f, 0)` gives the directory's blocks back, with all records under them. */
  function Removed(recs: Recs, f: Id): Recs {
    map x | x in recs && (x == f || !UnderEq(x, f)) ::
      if x == f then recs[x].(name := "", nblk := 0) else recs[x]
  }

  lemma RemovedWithout(recs: Recs, f: Id)
    requires f.Slot?
    ensures Without(recs, Removed(recs, f), f)
  {
  }

  /** Another slot of the same directory carries the same name. */
  ghost predicate Twin(recs: Recs, d: Id, k: nat) {
    exists j: nat :: j != k && j < FILE2BLK * R(recs, d).nblk && R(recs, Slot(d, j)).name == R(recs, Slot(d, k)).name
  }

  lemma {:induction false} FoundBelow(recs: Recs, dir: Option<Id>, cur: Id, comps: seq<string>)
    requires Resolve(recs, dir, cur, comps).Found?
    ensures var r := Resolve(recs, dir, cur, comps);
            && UnderEq(r.file, cur)
            && (comps != [] ==> r.file.Slot? && r.dir == Some(r.file.dir) && UnderEq(r.file.dir, cur)
                                && R(recs, r.file).name == comps[|comps| - 1]
                                && FindFrom(recs, r.file.dir, comps[|comps| - 1], 0) == Some(r.file.k))
    decreases |comps|
  {
    if comps != [] {
      var k := FindFrom(recs, cur, comps[0], 0).value;
      FoundBelow(recs, Some(cur), Slot(cur, k), comps[1..]);
      var r := Resolve(recs, dir, cur, comps);
      UnderParent(r.file, cur, k);
      if comps[1..] != [] { UnderParent(r.file.dir, cur, k); }
    }
  }

  lemma {:induction false} RemoveResolves(recs: Recs, less: Recs, f: Id, dir: Option<Id>, cur: Id, comps: seq<string>)
    requires Without(recs, less, f) && comps != [] && R(less, f.dir).nblk == R(recs, f.dir).nblk
    requires Resolve(recs, dir, cur, comps) == Found(Some(f.dir), f)
    requires forall i | 0 <= i < |comps| :: IsName(comps[i])
    ensures Resolve(less, dir, cur, comps).Missing? <==> !Twin(recs, f.dir, f.k)
    ensures Resolve(less, dir, cur, comps).Missing? || Resolve(less, dir, cur, comps).Found?
    decreases |comps|
  {
    FoundBelow(recs, dir, cur, comps);
    UnderDepth(f.dir, cur);
    UnderDepth(cur, f);
    assert Depth(f) == Depth(f.dir) + 1;
    assert !UnderEq(cur, f);
    assert IsName(comps[0]);
    var k := FindFrom(recs, cur, comps[0], 0).value;
    if |comps| > 1 {
      FoundBelow(recs, Some(cur), Slot(cur, k), comps[1..]);
      UnderDepth(f.dir, Slot(cur, k));
      SameFind(recs, less, f, cur, comps[0]);
      RemoveResolves(recs, less, f, Some(cur), Slot(cur, k), comps[1..]);
    } else {
      assert comps[1..] == [] && f == Slot(cur, k);
      LastLookup(recs, less, cur, k, comps[0]);
      LastStep(less, dir, cur, comps);
    }
  }

  lemma LastStep(recs: Recs, dir: Option<Id>, cur: Id, comps: seq<string>)
    requires |comps| == 1 && |comps[0]| < MAXNAMELEN && R(recs, cur).isDir
    ensures Resolve(recs, dir, cur, comps) ==
            match FindFrom(recs, cur, comps[0], 0)
            case Some(k) => Found(Some(cur), Slot(cur, k))
            case None => Missing(Some(cur), comps[0])
  {
    assert comps[1..] == [];
  }

  lemma LastLookup(recs: Recs, less: Recs, d: Id, k: nat, name: string)
    requires Without(recs, less, Slot(d, k)) && name != "" && R(recs, Slot(d, k)).name == name
    requires R(less, d).nblk == R(recs, d).nblk
    ensures FindFrom(less, d, name, 0).None? <==> !Twin(recs, d, k)
  {
    SlotIsDeeper(d, k);
    forall j: nat | j != k ensures R(less, Slot(d, j)).name == R(recs, Slot(d, j)).name {
      assert !UnderEq(Slot(d, j), Slot(d, k));
    }
    var r := FindFrom(less, d, name, 0);
    if r.Some? {
      assert r.value != k && R(recs, Slot(d, r.value)).name == name;
    }
  }

  /** After `file_remove` of a path other than the root, the path gives -E_NOT_FOUND if and only if
      no other slot of the directory carries the name. */
  lemma RemoveMissingIff(recs: Recs, path: string, f: Id)
    requires Comps(path) != [] && Open(recs, path).Found? && Open(recs, path).file == f
    ensures f.Slot? && (Open(Removed(recs, f), path).Missing? <==> !Twin(recs, f.dir, f.k))
  {
    CompsAreNames(path);
    FoundBelow(recs, None, Root, Comps(path));
    RemovedWithout(recs, f);
    SlotIsDeeper(f.dir, f.k);
    RemoveResolves(recs, Removed(recs, f), f, None, Root, Comps(path));
  }

  lemma RemoveOthers(recs: Recs, f: Id, path: string)
    requires f.Slot? && !Passes(recs, Root, Comps(path), f)
    ensures Open(Removed(recs, f), path) == Open(recs, path)
  {
    CompsAreNames(path);
    RemovedWithout(recs, f);
    OthersResolve(recs, Removed(recs, f), f, None, Root, Comps(path));
  }

  // ----- what every operation keeps -----

  predicate InUse(recs: Recs, d: Id, k: nat) {
    k < FILE2BLK * R(recs, d).nblk && R(recs, Slot(d, k)).name != ""
  }

  /** No directory has two entries of one name. */
  ghost predicate Unique(recs: Recs) {
    forall d, j, k | InUse(recs, d, j) && InUse(recs, d, k) && j != k ::
      R(recs, Slot(d, j)).name != R(recs, Slot(d, k)).name
  }

  /** The entries in use after a creation are the old ones and the new one. */
  lemma CreatedInUse(recs: Recs, d: Id, name: string, e: Id, k: nat)
    requires Tidy(recs)
    ensures var recs' := Created(recs, d, name);
            && (InUse(recs', e, k) && Slot(e, k) != Slot(d, NewSlot(recs, d)) ==>
                  InUse(recs, e, k) && R(recs', Slot(e, k)).name == R(recs, Slot(e, k)).name)
            && (Slot(e, k) == Slot(d, NewSlot(recs, d)) ==> R(recs', Slot(e, k)).name == name)
            && R(recs, e).nblk <= R(recs', e).nblk
  {
    SlotIsDeeper(d, NewSlot(recs, d));
  }

  lemma CreateKeeps(recs: Recs, path: string, d: Id, name: string)
    requires Tidy(recs) && Unique(recs) && Open(recs, path) == Missing(Some(d), name)
    ensures Tidy(Created(recs, d, name)) && Unique(Created(recs, d, name))
  {
    var recs' := Created(recs, d, name);
    MissingBelow(recs, None, Root, Comps(path), d, name);
    forall e: Id, j: nat, k: nat | InUse(recs', e, j) && InUse(recs', e, k) && j != k
      ensures R(recs', Slot(e, j)).name != R(recs', Slot(e, k)).name
    {
      CreatedInUse(recs, d, name, e, j);
      CreatedInUse(recs, d, name, e, k);
    }
    CreatedTidy(recs, d, name);
  }

  lemma CreatedTidy(recs: Recs, d: Id, name: string)
    requires Tidy(recs)
    ensures Tidy(Created(recs, d, name))
  {
    var recs' := Created(recs, d, name);
    SlotIsDeeper(d, NewSlot(recs, d));
    forall e: Id, k: nat | k >= FILE2BLK * R(recs', e).nblk ensures R(recs', Slot(e, k)).name == "" {
      CreatedInUse(recs, d, name, e, k);
      assert R(recs, Slot(e, k)).name == "";
    }
  }

  lemma RemovedInUse(recs: Recs, f: Id, e: Id, k: nat)
    requires Tidy(recs)
    ensures var recs' := Removed(recs, f);
            && (InUse(recs', e, k) ==> InUse(recs, e, k) && R(recs', Slot(e, k)).name == R(recs, Slot(e, k)).name)
            && (k >= FILE2BLK * R(recs', e).nblk ==> R(recs', Slot(e, k)).name == "")
  {
    if UnderEq(e, f) { assert UnderEq(Slot(e, k), f) && Slot(e, k) != f by { DeeperThan(e, k, f); } }
  }

  lemma DeeperThan(e: Id, k: nat, f: Id)
    requires UnderEq(e, f)
    ensures Slot(e, k) != f
  {
    UnderDepth(e, f);
    assert Depth(Slot(e, k)) == Depth(e) + 1;
  }

  lemma RemoveKeeps(recs: Recs, f: Id)
    requires Tidy(recs) && Unique(recs)
    ensures Tidy(Removed(recs, f)) && Unique(Removed(recs, f))
  {
    var recs' := Removed(recs, f);
    forall e: Id, k: nat | k >= FILE2BLK * R(recs', e).nblk ensures R(recs', Slot(e, k)).name == "" {
      RemovedInUse(recs, f, e, k);
    }
    forall e: Id, j: nat, k: nat | InUse(recs', e, j) && InUse(recs', e, k) && j != k
      ensures R(recs', Slot(e, j)).name != R(recs', Slot(e, k)).name
    {
      RemovedInUse(recs, f, e, j);
      RemovedInUse(recs, f, e, k);
    }
  }

  lemma UniqueNoTwin(recs: Recs, d: Id, k: nat)
    requires Unique(recs) && InUse(recs, d, k)
    ensures !Twin(recs, d, k)
  {
    forall j: nat | j != k && j < FILE2BLK * R(recs, d).nblk
      ensures R(recs, Slot(d, j)).name != R(recs, Slot(d, k)).name
    {
      assert InUse(recs, d, j) || R(recs, Slot(d, j)).name == "";
    }
  }

  /** With unique names a removed path is always gone. */
  lemma RemoveThenMissing(recs: Recs, path: string, f: Id)
    requires Unique(recs) && Comps(path) != [] && Open(recs, path).Found? && Open(recs, path).file == f
    ensures Open(Removed(recs, f), path).Missing?
  {
    CompsAreNames(path);
    FoundBelow(recs, None, Root, Comps(path));
    NeverFree(recs, None, Root, Comps(path));
    RemoveMissingIff(recs, path, f);
    UniqueNoTwin(recs, f.dir, f.k);
  }

  // ----- the server's own form -----

  datatype Block = Block(d: Id, i: nat)

  datatype Code = Ok | Failed(why: Outcome)

  datatype CreateResult = Made(file: Id) | Exists | Refused(why: Outcome)

  predicate OnDisk(mapped: set<Block>, d: Id, i: nat) { i < NINDIRECT && Block(d, i) in mapped }

  /** Block `i` of every directory is on disk. A directory whose growth failed has a hole instead. */
  ghost predicate AllMapped(recs: Recs, mapped: set<Block>) {
    forall d: Id, i: nat | i < R(recs, d).nblk :: OnDisk(mapped, d, i)
  }

  /** The directory has no free slot, and no further block to be had: its index is used up, or the disk. */
  predicate CannotGrow(recs: Recs, mapped: set<Block>, space: nat, d: Id) {
    && FindFrom(recs, d, "", 0).None?
    && (R(recs, d).nblk >= NINDIRECT || (Block(d, R(recs, d).nblk) !in mapped && space == 0))
  }

  predicate IsError(r: Outcome) { r.NoSpace? || r.Inval? }

  /** `space` is how many more blocks can be had. */
  class DirServer {
    var recs: Recs
    var mapped: set<Block>
    var space: nat

    /** `file_get_block`: a hole is filled, if a block can be had. */
    method GetBlock(d: Id, i: nat) returns (r: Code)
      modifies this`mapped, this`space
      ensures r == Ok <==> i < NINDIRECT && (Block(d, i) in old(mapped) || old(space) > 0)
      ensures r == Ok ==> mapped == old(mapped) + {Block(d, i)}
      ensures r != Ok ==> mapped == old(mapped) && IsError(r.why)
      ensures space == if r == Ok && Block(d, i) !in old(mapped) then old(space) - 1 else old(space)
    {
      if i >= NINDIRECT { return Failed(Inval); }
      if Block(d, i) in mapped { return Ok; }
      if space == 0 { return Failed(NoSpace); }
      mapped, space := mapped + {Block(d, i)}, space - 1;
      return Ok;
    }

    /** One block of a directory. */
    method ScanBlock(d: Id, name: string, i: nat) returns (k: Option<nat>)
      requires i < R(recs, d).nblk
      ensures FindFrom(recs, d, name, FILE2BLK * i) ==
              if k.Some? then k else FindFrom(recs, d, name, FILE2BLK * (i + 1))
    {
      var j := 0;
      while j < FILE2BLK
        invariant 0 <= j <= FILE2BLK
        invariant FindFrom(recs, d, name, FILE2BLK * i) == FindFrom(recs, d, name, FILE2BLK * i + j)
      {
        if R(recs, Slot(d, FILE2BLK * i + j)).name == name {
          return Some(FILE2BLK * i + j);
        }
        j := j + 1;
      }
      return None;
    }

    /** `dir_lookup`, block by block. */
    method DirLookup(d: Id, name: string) returns (r: Code, k: Option<nat>)
      modifies this`mapped, this`space
      ensures r == Ok ==> k == FindFrom(recs, d, name, 0)
      ensures r != Ok ==> IsError(r.why)
      ensures mapped >= old(mapped)
      ensures AllMapped(recs, old(mapped)) ==> r == Ok && mapped == old(mapped) && space == old(space)
    {
      var nblock := R(recs, d).nblk;
      var i := 0;
      while i < nblock
        invariant 0 <= i <= nblock && mapped >= old(mapped)
        invariant FindFrom(recs, d, name, 0) == FindFrom(recs, d, name, FILE2BLK * i)
        invariant AllMapped(recs, old(mapped)) ==> mapped == old(mapped) && space == old(space)
      {
        assert AllMapped(recs, old(mapped)) ==> OnDisk(mapped, d, i);
        r := GetBlock(d, i);
        if r != Ok { return r, None; }
        k := ScanBlock(d, name, i);
        if k.Some? { return Ok, k; }
        i := i + 1;
      }
      return Ok, None;
    }

    /** `walk_path` is component-wise lookup, for every string; it changes no record. */
    method WalkPath(path: string) returns (r: Outcome)
      modifies this`mapped, this`space
      ensures r == Open(recs, path) || IsError(r)
      ensures mapped >= old(mapped)
      ensures AllMapped(recs, old(mapped)) ==> r == Open(recs, path) && mapped == old(mapped) && space == old(space)
    {
      var p := SkipSlashes(path, 0);
      assert path[0..] == path;
      CompsSkip(path);
      var file, dir := Root, None;
      while p < |path|
        invariant p <= |path| && path[p..] == SkipSlash(path[p..])
        invariant Open(recs, path) == Resolve(recs, dir, file, Comps(path[p..]))
        invariant mapped >= old(mapped)
        invariant AllMapped(recs, old(mapped)) ==> mapped == old(mapped) && space == old(space)
        decreases |path| - p
      {
        var name;
        ghost var comps := Comps(path[p..]);
        name, p := NextName(path, p);
        assert comps[0] == name && comps[1..] == Comps(path[p..]);
        if |name| >= MAXNAMELEN { return BadPath; }
        if !R(recs, file).isDir { return Missing(None, ""); }
        var c, k := DirLookup(file, name);
        if c != Ok { return c.why; }
        if k.None? {
          return if p == |path| then Missing(Some(file), name) else Missing(None, "");
        }
        dir, file := Some(file), Slot(file, k.value);
      }
      return Found(dir, file);
    }

    /** `dir_alloc_file`. With every directory block on disk it fails if and only if the directory is
        full and cannot get a block, and then the directory keeps its new size, with a hole. */
    method DirAlloc(d: Id) returns (r: Code, k: nat)
      modifies this
      ensures r == Ok ==> k == NewSlot(old(recs), d) && recs == Grown(old(recs), d)
      ensures r != Ok ==> IsError(r.why) && (recs == old(recs) || recs == Grown(old(recs), d))
      ensures AllMapped(old(recs), old(mapped)) ==>
                && (r != Ok <==> CannotGrow(old(recs), old(mapped), old(space), d))
                && (r != Ok ==> recs == Grown(old(recs), d) && recs != old(recs) && !AllMapped(recs, mapped))
      ensures mapped >= old(mapped)
      ensures AllMapped(old(recs), old(mapped)) && r == Ok ==> AllMapped(recs, mapped)
    {
      var free;
      r, free := DirLookup(d, "");
      if r != Ok { return r, 0; }
      if free.Some? { return Ok, free.value; }
      var nblock := R(recs, d).nblk;
      recs := recs[d := R(recs, d).(nblk := nblock + 1)];
      ghost var m := mapped;
      r := GetBlock(d, nblock);
      if r == Ok {
        GrownMapped(old(recs), m, d);
      } else {
        assert R(recs, d).nblk == nblock + 1 && R(old(recs), d).nblk == nblock;
        Hole(recs, mapped, d, nblock);
      }
      return r, FILE2BLK * nblock;
    }

    /** `file_create`: it makes exactly the entry that is missing, and the path then opens to it; when it
        fails the path still gives no file. With every directory block on disk, a missing entry is refused
        if and only if its directory cannot grow, with the -E_NOT_FOUND of the walk for a code, and the
        directory has grown all the same. Names stay unique. */
    method Create(path: string) returns (r: CreateResult)
      requires Tidy(recs) && Unique(recs)
      modifies this
      ensures Tidy(recs) && Unique(recs)
      ensures r.Made? ==>
                && Open(old(recs), path).Missing? && Open(old(recs), path).parent.Some?
                && recs == Created(old(recs), Open(old(recs), path).parent.value, Open(old(recs), path).last)
                && Open(recs, path) == Found(Open(old(recs), path).parent, r.file)
      ensures r.Exists? ==> Open(old(recs), path).Found? && recs == old(recs)
      ensures r.Refused? ==> Open(recs, path) == Open(old(recs), path)
      ensures AllMapped(old(recs), old(mapped)) ==>
                && (Open(old(recs), path).Found? <==> r.Exists?)
                && (r.Made? ==> AllMapped(recs, mapped))
                && (r.Refused? ==> r.why == Open(old(recs), path))
                && (Open(old(recs), path).Missing? && Open(old(recs), path).parent.Some? ==>
                      var d := Open(old(recs), path).parent.value;
                      && (r.Refused? <==> CannotGrow(old(recs), old(mapped), old(space), d))
                      && (r.Refused? ==> recs == Grown(old(recs), d) && recs != old(recs)))
    {
      var w := WalkPath(path);
      if w.Found? { return Exists; }
      if !w.Missing? || w.parent.None? { return Refused(w); }
      var d := w.parent.value;
      ghost var before := recs;
      var c, k := DirAlloc(d);
      GrownKeeps(before, d, path);
      if c != Ok { return Refused(w); }
      CreateThenOpen(before, path, d, w.last);
      CreateKeeps(before, path, d, w.last);
      recs := recs[Slot(d, k) := R(recs, Slot(d, k)).(name := w.last)];
      CreatedBlocks(before, d, w.last);
      return Made(Slot(d, k));
    }

    /** `file_remove`: a path below the root no longer opens; records outside the file stay. */
    method Remove(path: string) returns (r: Outcome)
      requires Tidy(recs) && Unique(recs)
      modifies this
      ensures Tidy(recs) && Unique(recs)
      ensures r.Found? ==> r == Open(old(recs), path) && recs == Removed(old(recs), r.file)
                           && (Comps(path) != [] ==> Open(recs, path).Missing?)
      ensures !r.Found? ==> recs == old(recs)
      ensures AllMapped(old(recs), old(mapped)) ==> r == Open(old(recs), path) && AllMapped(recs, mapped)
    {
      r := WalkPath(path);
      if r.Found? {
        RemoveKeeps(recs, r.file);
        if Comps(path) != [] { RemoveThenMissing(recs, path, r.file); }
        var f := r.file;
        ghost var before, m := recs, mapped;
        recs := Removed(recs, f);
        mapped := set b | b in mapped && !UnderEq(b.d, f);
        RemovedBlocks(before, m, f);
      }
    }
  }

  lemma GrownKeeps(recs: Recs, d: Id, path: string)
    requires Tidy(recs) && Unique(recs)
    ensures Tidy(Grown(recs, d)) && Unique(Grown(recs, d)) && Open(Grown(recs, d), path) == Open(recs, path)
  {
    var g := Grown(recs, d);
    forall e: Id
      ensures R(g, e).name == R(recs, e).name && R(g, e).isDir == R(recs, e).isDir && R(g, e).nblk >= R(recs, e).nblk
    {
    }
    forall e: Id, k: nat | InUse(g, e, k) ensures InUse(recs, e, k) {
    }
    CompsAreNames(path);
    GrownResolve(recs, g, None, Root, Comps(path));
  }

  /** Free slots at the end of a directory do not matter to a walk. */
  lemma {:induction false} GrownResolve(recs: Recs, g: Recs, dir: Option<Id>, cur: Id, comps: seq<string>)
    requires Tidy(recs) && forall i | 0 <= i < |comps| :: IsName(comps[i])
    requires forall e: Id ::
               R(g, e).name == R(recs, e).name && R(g, e).isDir == R(recs, e).isDir && R(g, e).nblk >= R(recs, e).nblk
    ensures Resolve(g, dir, cur, comps) == Resolve(recs, dir, cur, comps)
    decreases |comps|
  {
    if comps != [] && |comps[0]| < MAXNAMELEN && R(recs, cur).isDir {
      assert IsName(comps[0]);
      var a, b := FindFrom(recs, cur, comps[0], 0), FindFrom(g, cur, comps[0], 0);
      assert a == b;
      if a.Some? { GrownResolve(recs, g, Some(cur), Slot(cur, a.value), comps[1..]); }
    }
  }

  lemma Hole(recs: Recs, mapped: set<Block>, d: Id, i: nat)
    requires i < R(recs, d).nblk && !OnDisk(mapped, d, i)
    ensures !AllMapped(recs, mapped)
  {
    assert AllMapped(recs, mapped) ==> OnDisk(mapped, d, i);
  }

  lemma GrownMapped(recs: Recs, mapped: set<Block>, d: Id)
    requires R(recs, d).nblk < NINDIRECT
    ensures AllMapped(recs, mapped) ==> AllMapped(Grown(recs, d), mapped + {Block(d, R(recs, d).nblk)})
  {
    var g, m := Grown(recs, d), mapped + {Block(d, R(recs, d).nblk)};
    if AllMapped(recs, mapped) {
      forall e: Id, i: nat | i < R(g, e).nblk ensures OnDisk(m, e, i) {
        assert i < R(recs, e).nblk ==> OnDisk(mapped, e, i);
        assert i < R(recs, e).nblk || Block(e, i) == Block(d, R(recs, d).nblk);
      }
    }
  }

  lemma CreatedBlocks(recs: Recs, d: Id, name: string)
    ensures forall e: Id :: R(Created(recs, d, name), e).nblk == R(Grown(recs, d), e).nblk
  {
  }

  lemma RemovedBlocks(recs: Recs, mapped: set<Block>, f: Id)
    ensures AllMapped(recs, mapped) ==> AllMapped(Removed(recs, f), set b | b in mapped && !UnderEq(b.d, f))
  {
    var less, left := Removed(recs, f), set b | b in mapped && !UnderEq(b.d, f);
    if AllMapped(recs, mapped) {
      forall d: Id, i: nat | i < R(less, d).nblk ensures OnDisk(left, d, i) {
        assert d in less && d != f;
        assert R(recs, d).nblk == R(less, d).nblk;
        assert OnDisk(mapped, d, i);
      }
    }
  }

  /** One round of the string part of the walk: a component and the slashes after it. */
  method NextName(path: string, p: nat) returns (name: string, q: nat)
    requires p < |path| && path[p..] == SkipSlash(path[p..])
    ensures p < q <= |path| && path[q..] == SkipSlash(path[q..])
    ensures Comps(path[p..]) == [name] + Comps(path[q..])
    ensures q == |path| <==> Comps(path[q..]) == []
  {
    var e := EndOfName(path, p);
    name := path[p..e];
    CompsStep(path[p..], e - p);
    assert path[p..][e - p..] == path[e..] && path[p..][..e - p] == name;
    q := SkipSlashes(path, e);
    CompsSkip(path[e..]);
    CompsSkip(path[q..]);
  }

  method SkipSlashes(path: string, p: nat) returns (q: nat)
    requires p <= |path|
    ensures p <= q <= |path| && path[q..] == SkipSlash(path[p..]) == SkipSlash(path[q..])
  {
    q := p;
    while q < |path| && path[q] == '/'
      invariant p <= q <= |path| && SkipSlash(path[p..]) == SkipSlash(path[q..])
    {
      assert path[q..][1..] == path[q + 1..];
      q := q + 1;
    }
  }

  method EndOfName(path: string, p: nat) returns (q: nat)
    requires p <= |path|
    ensures p <= q <= |path| && q - p == NameLen(path[p..])
  {
    q := p;
    while q < |path| && path[q] != '/'
      invariant p <= q <= |path| && NameLen(path[p..]) == q - p + NameLen(path[q..])
    {
      assert path[q..][1..] == path[q + 1..];
      q := q + 1;
    }
  }

  lemma CompsStep(s: string, n: nat)
    requires s != "" && SkipSlash(s) == s && n == NameLen(s)
    ensures Comps(s) == [s[..n]] + Comps(s[n..]) && n > 0
  {
  }

  lemma CompsSkip(s: string)
    ensures Comps(SkipSlash(s)) == Comps(s)
    ensures SkipSlash(s) == "" <==> Comps(s) == []
  {
    SkipTwice(s);
  }

  lemma {:induction false} SkipTwice(s: string)
    ensures SkipSlash(SkipSlash(s)) == SkipSlash(s)
  {
    if s != "" && s[0] == '/' { SkipTwice(s[1..]); }
  }
}
