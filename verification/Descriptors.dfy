/** File descriptors and their rights (src/wasi/methods.rs: path_open,
    fd_fdstat_set_rights, fd_close; src/wasi/ctx.rs). */
module Descriptors {
  import opened Wasm
  import opened Runtime
  import opened GuestMemory

  /** A bit mask as the set of the bits set. */
  type Mask = set<nat>

  const RIGHT_FD_DATASYNC := 0
  const RIGHT_FD_SYNC := 4
  const RIGHT_PATH_CREATE_FILE := 10
  const RIGHT_PATH_OPEN := 13
  const RIGHT_PATH_FILESTAT_SET_SIZE := 19

  const LOOKUP_SYMLINK_FOLLOW := 0
  const OFLAG_CREAT := 0
  const OFLAG_DIRECTORY := 1
  const OFLAG_EXCL := 2
  const OFLAG_TRUNC := 3
  const FDFLAG_APPEND := 0
  const FDFLAG_DSYNC := 1
  const FDFLAG_NONBLOCK := 2
  const FDFLAG_RSYNC := 3
  const FDFLAG_SYNC := 4

  const OFLAGS_ALL: Mask := {OFLAG_CREAT, OFLAG_DIRECTORY, OFLAG_EXCL, OFLAG_TRUNC}
  const FDFLAGS_ALL: Mask := {FDFLAG_APPEND, FDFLAG_DSYNC, FDFLAG_NONBLOCK, FDFLAG_RSYNC, FDFLAG_SYNC}

  const SUCCESS := 0
  const BADF := 8
  const FAULT := 21
  const ILSEQ := 25
  const INVAL := 28
  const MFILE := 33
  const NOENT := 44
  const NOTDIR := 54
  const NOTCAPABLE := 76

  const MAX_FD := 0x7FFF_FFFF

  type Fd = u32

  datatype FdEntry<R> = FdEntry(resource: R, flags: Mask, base: Mask, inheriting: Mask, preopen: Option<Name>)

  type Table<R> = map<Fd, FdEntry<R>>

  datatype OpenOptions = OpenOptions(
    followSymlink: bool, create: bool, directory: bool, exclusive: bool, truncate: bool, fdflags: Mask, base: Mask, inheriting: Mask)

  datatype PathError =
    | Io | Unsupported | NotFound | AlreadyExists | NotDirectory | PermissionDenied | NotCapable | InvalidInput
    | CrossDevice | NotEmpty | IsDirectory

  function PathErrorCode(e: PathError): (r: nat)
    ensures r != SUCCESS
  {
    match e
    case Io => 29
    case Unsupported => 58
    case NotFound => NOENT
    case AlreadyExists => 20
    case NotDirectory => NOTDIR
    case PermissionDenied => 2
    case NotCapable => NOTCAPABLE
    case InvalidInput => INVAL
    case CrossDevice => 75
    case NotEmpty => 55
    case IsDirectory => 31
  }

  datatype OpenResult<R> = Opened(resource: R) | Refused(error: PathError)

  /** The embedder's resources: opening may change the directory it goes through. */
  datatype Backend<!R> = Backend(
    directory: R -> bool,
    open: (R, Name, OpenOptions) -> (R, OpenResult<R>),
    utf8: Name -> bool)

  datatype OpenArgs = OpenArgs(
    fd: Fd, lookup: Mask, pathPtr: u32, pathLen: u32, oflags: Mask, base: Mask, inheriting: Mask, fdflags: Mask, openedPtr: u32)

  // ----- the least free descriptor -----

  /** The least free descriptor from `fd` on. */
  function NextFree<R>(ds: Table<R>, fd: Fd): (r: Option<Fd>)
    requires fd <= MAX_FD + 1
    ensures r.Some? ==> fd <= r.value <= MAX_FD && r.value !in ds && forall k: Fd :: fd <= k < r.value ==> k in ds
    ensures r.None? ==> forall k: Fd :: fd <= k <= MAX_FD ==> k in ds
    decreases MAX_FD + 1 - fd
  {
    if fd > MAX_FD then None else if fd in ds then NextFree(ds, fd + 1) else Some(fd)
  }

  lemma {:induction false} NextFreeIs<R>(ds: Table<R>, fd: Fd, r: Fd)
    requires fd <= r <= MAX_FD && r !in ds && forall k: Fd :: fd <= k < r ==> k in ds
    ensures NextFree(ds, fd) == Some(r)
    decreases r - fd
  {
    if fd < r { NextFreeIs(ds, fd + 1, r); }
  }

  predicate IsLeast(k: Fd, s: set<Fd>) { k in s && forall x: Fd :: x in s ==> k <= x }

  lemma {:induction false} LeastExists(s: set<Fd>)
    requires s != {}
    ensures exists k :: IsLeast(k, s)
    decreases |s|
  {
    var x :| x in s;
    if s != {x} {
      assert s == (s - {x}) + {x};
      LeastExists(s - {x});
      var k :| IsLeast(k, s - {x});
      var least := if k < x then k else x;
      forall y | y in s ensures least <= y { assert y == x || y in s - {x}; }
      assert IsLeast(least, s);
    } else {
      assert IsLeast(x, s);
    }
  }

  /** The keys of the ordered map, in order. */
  function Ascending(s: set<Fd>): seq<Fd>
    decreases |s|
  {
    if s == {} then []
    else
      LeastExists(s);
      var k :| IsLeast(k, s);
      [k] + Ascending(s - {k})
  }

  ghost predicate Lists(r: seq<Fd>, s: set<Fd>) {
    && (forall i :: 0 <= i < |r| ==> r[i] in s)
    && (forall x: Fd :: x in s ==> x in r)
    && (forall i, j :: 0 <= i < j < |r| ==> r[i] < r[j])
  }

  lemma {:induction false} AscendingLists(s: set<Fd>)
    ensures Lists(Ascending(s), s)
    decreases |s|
  {
    if s != {} {
      LeastExists(s);
      var k :| k == Ascending(s)[0] && IsLeast(k, s);
      AscendingLists(s - {k});
      ListsMore(Ascending(s - {k}), s, k);
    }
  }

  lemma ListsMore(rest: seq<Fd>, s: set<Fd>, k: Fd)
    requires IsLeast(k, s) && Lists(rest, s - {k})
    ensures Lists([k] + rest, s)
  {
    var r := [k] + rest;
    forall x | x in s ensures x in r { assert x == k || x in rest; }
    forall i | 0 < i < |r| ensures r[i] in s && k < r[i] { assert r[i] == rest[i - 1]; }
  }

  /** The descriptors that are not the standard streams. */
  function Files<R>(ds: Table<R>): set<Fd> { set k | k in ds && k >= 3 }

  lemma {:induction false} Filled<R>(ds: Table<R>, keys: seq<Fd>, i: nat, k: Fd)
    requires Lists(keys, Files(ds)) && i <= |keys| && forall j :: 0 <= j < i ==> keys[j] == 3 + j
    requires 3 <= k < 3 + i
    ensures k in ds
  {
    assert keys[k - 3] == k && keys[k - 3] in Files(ds);
  }

  lemma FirstGap<R>(ds: Table<R>, keys: seq<Fd>, i: nat)
    requires Lists(keys, Files(ds)) && i <= |keys| && forall j :: 0 <= j < i ==> keys[j] == 3 + j
    requires (i < |keys| ==> keys[i] != 3 + i) && 3 + i <= MAX_FD
    ensures NextFree(ds, 3) == Some(3 + i)
  {
    var fd: Fd := 3 + i;
    forall k: Fd | 3 <= k < fd ensures k in ds { Filled(ds, keys, i, k); }
    if fd in ds {
      assert fd in Files(ds) && fd in keys;
      var j :| 0 <= j < |keys| && keys[j] == fd;
      GapFar(ds, keys, i, j);
      assert false;
    }
    NextFreeIs(ds, 3, fd);
  }

  lemma GapFar<R>(ds: Table<R>, keys: seq<Fd>, i: nat, j: nat)
    requires Lists(keys, Files(ds)) && i <= |keys| && forall j :: 0 <= j < i ==> keys[j] == 3 + j
    requires (i < |keys| ==> keys[i] != 3 + i) && j < |keys|
    ensures keys[j] != 3 + i
  {
    if i <= j {
      assert keys[i] in Files(ds);
      assert i > 0 ==> keys[i - 1] < keys[i];
      assert i < j ==> keys[i] < keys[j];
    }
  }

  lemma NoGap<R>(ds: Table<R>, keys: seq<Fd>, i: nat)
    requires Lists(keys, Files(ds)) && i <= |keys| && forall j :: 0 <= j < i ==> keys[j] == 3 + j
    requires 3 + i > MAX_FD
    ensures NextFree(ds, 3).None?
  {
    forall k: Fd | 3 <= k <= MAX_FD ensures k in ds { Filled(ds, keys, i, k); }
  }

  // ----- opening -----

  /** The error code, the descriptors and the memory after a call. */
  datatype Outcome<R> = Outcome(errno: nat, descriptors: Table<R>, memory: Option<seq<byte>>)

  predicate FlagsKnown(a: OpenArgs) {
    a.lookup <= {LOOKUP_SYMLINK_FOLLOW} && a.oflags <= OFLAGS_ALL && a.fdflags <= FDFLAGS_ALL
  }

  /** What the directory's rights must include. */
  predicate MayOpen<R>(parent: FdEntry<R>, a: OpenArgs) {
    && RIGHT_PATH_OPEN in parent.base
    && a.base + a.inheriting <= parent.inheriting
    && (OFLAG_CREAT in a.oflags ==> RIGHT_PATH_CREATE_FILE in parent.base)
    && (OFLAG_TRUNC in a.oflags ==> RIGHT_PATH_FILESTAT_SET_SIZE in parent.base)
    && (FDFLAG_DSYNC in a.fdflags ==> parent.base * {RIGHT_FD_DATASYNC, RIGHT_FD_SYNC} != {})
    && (a.fdflags * {FDFLAG_RSYNC, FDFLAG_SYNC} != {} ==> RIGHT_FD_SYNC in parent.base)
  }

  function Options(a: OpenArgs): OpenOptions {
    OpenOptions(a.lookup != {}, OFLAG_CREAT in a.oflags, OFLAG_DIRECTORY in a.oflags, OFLAG_EXCL in a.oflags,
                OFLAG_TRUNC in a.oflags, a.fdflags, a.base, a.inheriting)
  }

  /** The error a guest path is refused with, or success. */
  function PathErrno<R>(b: Backend<R>, mem: seq<byte>, at: nat, n: nat): (r: nat)
    ensures r == SUCCESS ==> InBounds(mem, at, n)
  {
    if !InBounds(mem, at, n) then FAULT
    else if !b.utf8(mem[at..at + n]) then ILSEQ
    else if n == 0 then NOENT
    else if 0 in mem[at..at + n] then INVAL
    else if mem[at] == 0x2F then NOTCAPABLE
    else SUCCESS
  }

  /** The checks that precede any effect. */
  function Checked<R>(b: Backend<R>, ds: Table<R>, mem: Option<seq<byte>>, a: OpenArgs): (r: nat)
    ensures r == SUCCESS ==>
              && a.fd in ds && MayOpen(ds[a.fd], a) && NextFree(ds, 3).Some?
              && mem.Some? && a.openedPtr + 4 <= |mem.value| && a.pathPtr + a.pathLen <= |mem.value|
  {
    if !FlagsKnown(a) then INVAL
    else if a.fd !in ds then BADF
    else if !MayOpen(ds[a.fd], a) then NOTCAPABLE
    else if !b.directory(ds[a.fd].resource) then NOTDIR
    else if mem.None? || !InBounds(mem.value, a.openedPtr, 4) then FAULT
    else if PathErrno(b, mem.value, a.pathPtr, a.pathLen) != SUCCESS then PathErrno(b, mem.value, a.pathPtr, a.pathLen)
    else if NextFree(ds, 3).None? then MFILE
    else SUCCESS
  }

  function PathOpened<R>(b: Backend<R>, ds: Table<R>, mem: Option<seq<byte>>, a: OpenArgs): Outcome<R> {
    var code := Checked(b, ds, mem, a);
    if code != SUCCESS then Outcome(code, ds, mem)
    else
      var fd := NextFree(ds, 3).value;
      var (parent, answer) := b.open(ds[a.fd].resource, mem.value[a.pathPtr..a.pathPtr + a.pathLen], Options(a));
      var ds' := ds[a.fd := ds[a.fd].(resource := parent)];
      if answer.Refused? then Outcome(PathErrorCode(answer.error), ds', mem)
      else if Options(a).directory && !b.directory(answer.resource) then Outcome(NOTDIR, ds', mem)
      else
        Outcome(SUCCESS, Installed(ds, a, parent, fd, answer.resource), Some(Written(mem.value, a.openedPtr, ToLE(fd, 4))))
  }

  /** The table with a new entry, opened through a directory that may have changed. */
  function Installed<R>(ds: Table<R>, a: OpenArgs, parent: R, fd: Fd, resource: R): (r: Table<R>)
    requires a.fd in ds && fd !in ds
    ensures r.Keys == ds.Keys + {fd}
    ensures forall k :: k in ds ==> r[k] == if k == a.fd then ds[k].(resource := parent) else ds[k]
    ensures r[fd] == FdEntry(resource, a.fdflags, a.base, a.inheriting, None)
  {
    ds[a.fd := ds[a.fd].(resource := parent)][fd := FdEntry(resource, a.fdflags, a.base, a.inheriting, None)]
  }

  function RightsSet<R>(ds: Table<R>, fd: Fd, base: Mask, inheriting: Mask): (nat, Table<R>) {
    if fd !in ds then (BADF, ds)
    else if !(base <= ds[fd].base && inheriting <= ds[fd].inheriting) then (NOTCAPABLE, ds)
    else (SUCCESS, ds[fd := ds[fd].(base := base, inheriting := inheriting)])
  }

  function Closed<R>(ds: Table<R>, fd: Fd): (nat, Table<R>) {
    if fd in ds then (SUCCESS, ds - {fd}) else (BADF, ds)
  }

  /** The host side of a guest's calls. */
  class WasiCtx<R> {
    var descriptors: Table<R>
    const backend: Backend<R>

    constructor (descriptors: Table<R>, backend: Backend<R>)
      ensures this.descriptors == descriptors && this.backend == backend
    {
      this.descriptors := descriptors;
      this.backend := backend;
    }

    /** The first gap in the ordered keys from 3 on. */
    method FreeFd() returns (r: Option<Fd>)
      ensures r == NextFree(descriptors, 3)
    {
      hide NextFree, Lists;
      var keys := Ascending(Files(descriptors));
      AscendingLists(Files(descriptors));
      var fd: Fd := 3;
      var i := 0;
      while i < |keys|
        invariant i <= |keys| && fd == 3 + i && fd <= MAX_FD
        invariant forall j :: 0 <= j < i ==> keys[j] == 3 + j
      {
        if keys[i] != fd { break; }
        fd := fd + 1;
        if fd > MAX_FD {
          NoGap(descriptors, keys, i + 1);
          return None;
        }
        i := i + 1;
      }
      FirstGap(descriptors, keys, i);
      return Some(fd);
    }

    method PathOpen(a: OpenArgs, memory: array?<byte>) returns (errno: nat)
      modifies this, memory
      ensures var mem := if memory == null then None else Some(old(memory[..]));
              && PathOpened(backend, old(descriptors), mem, a).errno == errno
              && PathOpened(backend, old(descriptors), mem, a).descriptors == descriptors
              && PathOpened(backend, old(descriptors), mem, a).memory == if memory == null then None else Some(memory[..])
    {
      if a.lookup - {LOOKUP_SYMLINK_FOLLOW} != {} || a.oflags - OFLAGS_ALL != {} || a.fdflags - FDFLAGS_ALL != {} {
        return INVAL;
      }
      if a.fd !in descriptors { return BADF; }
      var parent := descriptors[a.fd];
      if !MayOpen(parent, a) { return NOTCAPABLE; }
      if !backend.directory(parent.resource) { return NOTDIR; }
      if memory == null { return FAULT; }
      if a.openedPtr + 4 > memory.Length { return FAULT; }
      errno := GuestPath(memory, a.pathPtr, a.pathLen);
      if errno != SUCCESS { return; }
      var fd := FreeFd();
      if fd.None? { return MFILE; }
      var path := memory[a.pathPtr..a.pathPtr + a.pathLen];
      var (resource, answer) := backend.open(parent.resource, path, Options(a));
      descriptors := descriptors[a.fd := descriptors[a.fd].(resource := resource)];
      if answer.Refused? { return PathErrorCode(answer.error); }
      if Options(a).directory && !backend.directory(answer.resource) { return NOTDIR; }
      descriptors := descriptors[fd.value := FdEntry(answer.resource, a.fdflags, a.base, a.inheriting, None)];
      WriteBytes(memory, a.openedPtr, ToLE(fd.value, 4));
      return SUCCESS;
    }

    method GuestPath(memory: array<byte>, at: nat, n: nat) returns (errno: nat)
      ensures errno == PathErrno(backend, memory[..], at, n)
    {
      if at + n > memory.Length { return FAULT; }
      var path := memory[at..at + n];
      assert path == memory[..][at..at + n];
      if !backend.utf8(path) { return ILSEQ; }
      if n == 0 { return NOENT; }
      if 0 in path { return INVAL; }
      if path[0] == 0x2F { return NOTCAPABLE; }
      return SUCCESS;
    }

    method SetRights(fd: Fd, base: Mask, inheriting: Mask) returns (errno: nat)
      modifies this
      ensures (errno, descriptors) == RightsSet(old(descriptors), fd, base, inheriting)
    {
      if fd !in descriptors { return BADF; }
      var d := descriptors[fd];
      if !(base <= d.base) || !(inheriting <= d.inheriting) { return NOTCAPABLE; }
      descriptors := descriptors[fd := d.(base := base, inheriting := inheriting)];
      return SUCCESS;
    }

    method Close(fd: Fd) returns (errno: nat)
      modifies this
      ensures (errno, descriptors) == Closed(old(descriptors), fd)
    {
      if fd in descriptors {
        descriptors := descriptors - {fd};
        return SUCCESS;
      }
      return BADF;
    }
  }

  // ----- whole runs -----

  /** A guest's calls. The memory of an open is what it is at the call. `Other`
      stands for calls that change a descriptor's resource or flags only. */
  datatype Call<R> =
    | PathOpen(a: OpenArgs, mem: Option<seq<byte>>)
    | SetRights(fd: Fd, base: Mask, inheriting: Mask)
    | Close(fd: Fd)
    | Other(fd: Fd, resource: R, flags: Mask)

  /** The descriptors, for each the initial one its chain of opens started from,
      and which of them the guest opened. */
  datatype State<R> = State(ds: Table<R>, origins: map<Fd, Fd>, guest: set<Fd>)

  predicate Tracked<R>(s: State<R>) { s.origins.Keys == s.ds.Keys && s.guest <= s.ds.Keys }

  function Start<R>(ds: Table<R>): (s: State<R>)
    ensures Tracked(s)
  {
    State(ds, map fd | fd in ds :: fd, {})
  }

  function After<R>(b: Backend<R>, s: State<R>, call: Call<R>): (r: State<R>)
    requires Tracked(s)
    ensures Tracked(r)
  {
    match call
    case PathOpen(a, mem) =>
      var o := PathOpened(b, s.ds, mem, a);
      if o.errno != SUCCESS then s.(ds := o.descriptors)
      else
        var fd := NextFree(s.ds, 3).value;
        State(o.descriptors, s.origins[fd := s.origins[a.fd]], s.guest + {fd})
    case SetRights(fd, base, inheriting) => s.(ds := RightsSet(s.ds, fd, base, inheriting).1)
    case Close(fd) => State(Closed(s.ds, fd).1, s.origins - {fd}, s.guest - {fd})
    case Other(fd, resource, flags) =>
      if fd in s.ds then s.(ds := s.ds[fd := s.ds[fd].(resource := resource, flags := flags)]) else s
  }

  function Run<R>(b: Backend<R>, s: State<R>, calls: seq<Call<R>>): (r: State<R>)
    requires Tracked(s)
    ensures Tracked(r)
  {
    if calls == [] then s else After(b, Run(b, s, calls[..|calls| - 1]), calls[|calls| - 1])
  }

  /** The rights of every descriptor are bounded by those its chain started with. */
  ghost predicate Bounded<R>(ds0: Table<R>, s: State<R>) {
    && Tracked(s)
    && (forall fd :: fd in s.ds ==> s.origins[fd] in ds0)
    && (forall fd :: fd in s.ds ==> s.ds[fd].inheriting <= ds0[s.origins[fd]].inheriting)
    && (forall fd :: fd in s.guest ==> s.ds[fd].base <= ds0[s.origins[fd]].inheriting)
    && (forall fd :: fd in s.ds && fd !in s.guest ==> s.origins[fd] == fd && s.ds[fd].base <= ds0[fd].base)
  }

  lemma CallKeepsBounds<R>(b: Backend<R>, ds0: Table<R>, s: State<R>, call: Call<R>)
    requires Bounded(ds0, s)
    ensures Bounded(ds0, After(b, s, call))
  {
    hide PathOpened, NextFree;
    if call.PathOpen? { OpenEffect(b, s.ds, call.mem, call.a); }
  }

  /** What an open does to the descriptors. */
  lemma OpenEffect<R>(b: Backend<R>, ds: Table<R>, mem: Option<seq<byte>>, a: OpenArgs)
    ensures var o := PathOpened(b, ds, mem, a);
            && (forall k :: k in ds ==> k in o.descriptors && o.descriptors[k].base == ds[k].base
                                        && o.descriptors[k].inheriting == ds[k].inheriting && (k != a.fd ==> o.descriptors[k] == ds[k]))
            && (o.errno != SUCCESS ==> o.descriptors.Keys == ds.Keys && o.memory == mem)
            && (o.errno == SUCCESS ==>
                  && a.fd in ds && NextFree(ds, 3).Some? && o.descriptors.Keys == ds.Keys + {NextFree(ds, 3).value}
                  && var entry := o.descriptors[NextFree(ds, 3).value];
                  && entry.base == a.base && entry.inheriting == a.inheriting
                  && a.base <= ds[a.fd].inheriting && a.inheriting <= ds[a.fd].inheriting)
  {
    hide Checked, NextFree, Options, MayOpen, PathErrorCode, Written, Installed;
    if Checked(b, ds, mem, a) == SUCCESS { OpenedWithin(ds[a.fd], a); }
  }

  lemma OpenedWithin<R>(parent: FdEntry<R>, a: OpenArgs)
    requires MayOpen(parent, a)
    ensures a.base <= parent.inheriting && a.inheriting <= parent.inheriting
  {
    assert a.base <= a.base + a.inheriting && a.inheriting <= a.base + a.inheriting;
  }

  /** Rights only shrink: after any calls, whatever a guest opened has at most the
      inheriting rights that the start of its chain had, and what it was given has
      at most the rights it came with. */
  lemma {:induction false} RightsOnlyShrink<R>(b: Backend<R>, ds0: Table<R>, calls: seq<Call<R>>)
    ensures Bounded(ds0, Run(b, Start(ds0), calls))
  {
    if calls != [] {
      var before := calls[..|calls| - 1];
      RightsOnlyShrink(b, ds0, before);
      CallKeepsBounds(b, ds0, Run(b, Start(ds0), before), calls[|calls| - 1]);
    }
  }

  /** A successful open takes the least free descriptor from 3 on and gives the
      guest its number; no descriptor that was there is replaced. */
  lemma OpenTakesLeast<R>(b: Backend<R>, ds: Table<R>, mem: Option<seq<byte>>, a: OpenArgs)
    requires PathOpened(b, ds, mem, a).errno == SUCCESS
    ensures var o := PathOpened(b, ds, mem, a);
            && o.memory.Some? && a.openedPtr + 4 <= |o.memory.value|
            && var fd := FromLE(o.memory.value[a.openedPtr..a.openedPtr + 4]);
            && 3 <= fd <= MAX_FD && (forall k: Fd :: 3 <= k < fd ==> k in ds)
            && fd !in ds && o.descriptors.Keys == ds.Keys + {fd}
  {
    OpenEffect(b, ds, mem, a);
    OpenWrites(b, ds, mem, a);
    LEBack(NextFree(ds, 3).value);
  }

  lemma OpenWrites<R>(b: Backend<R>, ds: Table<R>, mem: Option<seq<byte>>, a: OpenArgs)
    requires PathOpened(b, ds, mem, a).errno == SUCCESS
    ensures mem.Some? && NextFree(ds, 3).Some? && a.openedPtr + 4 <= |mem.value|
    ensures var out := PathOpened(b, ds, mem, a).memory;
            out.Some? && |out.value| == |mem.value| && out.value[a.openedPtr..a.openedPtr + 4] == ToLE(NextFree(ds, 3).value, 4)
  {
    hide Checked, NextFree, Options, MayOpen, PathErrorCode, Written, Installed, ToLE;
  }

  /** A descriptor that stays open never gains a right. */
  lemma {:induction false} HeldOpenOnlyLoses<R>(b: Backend<R>, s: State<R>, calls: seq<Call<R>>, fd: Fd)
    requires Tracked(s) && fd in s.ds && forall i :: 0 <= i < |calls| ==> calls[i] != Close(fd)
    ensures var t := Run(b, s, calls);
            fd in t.ds && t.ds[fd].base <= s.ds[fd].base && t.ds[fd].inheriting <= s.ds[fd].inheriting
  {
    if calls != [] {
      var before := calls[..|calls| - 1];
      HeldOpenOnlyLoses(b, s, before, fd);
      var t := Run(b, s, before);
      CallOnlyLoses(b, t, calls[|calls| - 1], fd);
    }
  }

  lemma CallOnlyLoses<R>(b: Backend<R>, s: State<R>, call: Call<R>, fd: Fd)
    requires Tracked(s) && fd in s.ds && call != Close(fd)
    ensures var t := After(b, s, call);
            fd in t.ds && t.ds[fd].base <= s.ds[fd].base && t.ds[fd].inheriting <= s.ds[fd].inheriting
  {
    hide PathOpened, NextFree;
    if call.PathOpen? { OpenEffect(b, s.ds, call.mem, call.a); }
  }
}
