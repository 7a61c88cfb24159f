/** Listing a directory into a guest buffer (src/wasi/methods.rs: fd_readdir;
    src/wasi/ctx.rs: the header of an entry). */
module Directory {
  import opened Wasm
  import opened Runtime
  import opened GuestMemory
  import opened Descriptors

  const OVERFLOW := 61
  const RIGHT_FD_READDIR := 14

  type Bytes = seq<byte>

  datatype ListError = IoError | Interrupted | WouldBlock | Unlistable

  function ListErrorCode(e: ListError): (r: nat)
    ensures r != SUCCESS
  {
    match e
    case IoError => 29
    case Interrupted => 27
    case WouldBlock => 6
    case Unlistable => 58
  }

  datatype Entry = Entry(next: u64, ino: u64, kind: byte, name: Bytes)

  /** What the directory answers at a cookie. */
  datatype Answer = Item(entry: Entry) | End | Failed(error: ListError)

  type Listing = u64 -> Answer

  const HEADER := 24

  function Header(e: Entry): (h: Bytes)
    requires |e.name| < TWO_TO_32
    ensures |h| == HEADER
  {
    ToLE(e.next, 8) + ToLE(e.ino, 8) + ToLE(|e.name|, 4) + [e.kind, 0, 0, 0]
  }

  /** An entry as the guest sees it. */
  function Record(e: Entry): (r: Bytes)
    requires |e.name| < TWO_TO_32
    ensures |r| == HEADER + |e.name|
  {
    Header(e) + e.name
  }

  // ----- what a listing is -----

  /** The cookie after the entries. */
  function Cookie(cookie: u64, es: seq<Entry>): u64 {
    if es == [] then cookie else es[|es| - 1].next
  }

  /** The entries found from a cookie on, each at the cookie the one before names. */
  ghost predicate Chain(dir: Listing, cookie: u64, es: seq<Entry>)
    decreases |es|
  {
    es != [] ==>
      var m := |es| - 1;
      && Chain(dir, cookie, es[..m])
      && dir(Cookie(cookie, es[..m])) == Item(es[m]) && |es[m].name| < TWO_TO_32
  }

  /** The records of some entries, one after the other. */
  function Records(es: seq<Entry>): Bytes
    requires forall e :: e in es ==> |e.name| < TWO_TO_32
  {
    if es == [] then [] else Records(es[..|es| - 1]) + Record(es[|es| - 1])
  }

  lemma {:induction false} ChainNames(dir: Listing, cookie: u64, es: seq<Entry>)
    requires Chain(dir, cookie, es)
    ensures forall e :: e in es ==> |e.name| < TWO_TO_32
    decreases |es|
  {
    if es != [] {
      ChainNames(dir, cookie, es[..|es| - 1]);
      assert es == es[..|es| - 1] + [es[|es| - 1]];
    }
  }

  lemma {:induction false} RecordsGrow(es: seq<Entry>)
    requires forall e :: e in es ==> |e.name| < TWO_TO_32
    ensures |Records(es)| >= HEADER * |es|
  {
    if es != [] { RecordsGrow(es[..|es| - 1]); }
  }

  /** How the listing from a cookie comes to an end after the entries, if it does. */
  function Stop(dir: Listing, cookie: u64, es: seq<Entry>): Option<nat> {
    match dir(Cookie(cookie, es))
    case End => Some(SUCCESS)
    case Failed(error) => Some(ListErrorCode(error))
    case Item(e) => if |e.name| < TWO_TO_32 then None else Some(OVERFLOW)
  }

  // ----- filling a buffer -----

  /** What a buffer of a size gets: an error code, or the bytes; and the bytes
      already there when the error came. */
  datatype Filled = Filled(bytes: Bytes, errno: nat)

  function Fill(dir: Listing, cookie: u64, room: nat): (f: Filled)
    ensures |f.bytes| <= room
    decreases room
  {
    if room == 0 then Filled([], SUCCESS)
    else
      match dir(cookie)
      case End => Filled([], SUCCESS)
      case Failed(error) => Filled([], ListErrorCode(error))
      case Item(e) =>
        if |e.name| >= TWO_TO_32 then Filled([], OVERFLOW)
        else if |Record(e)| > room then Filled(Record(e)[..room], SUCCESS)
        else
          var rest := Fill(dir, e.next, room - |Record(e)|);
          Filled(Record(e) + rest.bytes, rest.errno)
  }

  lemma FillItem(dir: Listing, cookie: u64, e: Entry, room: nat)
    requires dir(cookie) == Item(e) && |e.name| < TWO_TO_32
    ensures |Record(e)| <= room ==>
              var rest := Fill(dir, e.next, room - |Record(e)|);
              Fill(dir, cookie, room) == Filled(Record(e) + rest.bytes, rest.errno)
    ensures room <= |Record(e)| ==> Fill(dir, cookie, room) == Filled(Record(e)[..room], SUCCESS)
  {
    hide Record;
    assert Fill(dir, e.next, 0) == Filled([], SUCCESS);
    assert Record(e)[..|Record(e)|] == Record(e) == Record(e) + [];
  }

  lemma FillStops(dir: Listing, cookie: u64, room: nat)
    ensures room > 0 && Stop(dir, cookie, []).Some? ==> Fill(dir, cookie, room) == Filled([], Stop(dir, cookie, []).value)
    ensures Fill(dir, cookie, 0) == Filled([], SUCCESS)
  {
  }

  /** The listing goes on from the entries found. */
  lemma {:induction false} FillAfter(dir: Listing, cookie: u64, es: seq<Entry>, room: nat)
    requires Chain(dir, cookie, es)
    ensures forall e :: e in es ==> |e.name| < TWO_TO_32
    ensures |Records(es)| <= room ==>
              var rest := Fill(dir, Cookie(cookie, es), room - |Records(es)|);
              Fill(dir, cookie, room) == Filled(Records(es) + rest.bytes, rest.errno)
    decreases |es|
  {
    hide Fill, Record;
    ChainNames(dir, cookie, es);
    if es == [] {
      assert Records(es) + Fill(dir, cookie, room).bytes == Fill(dir, cookie, room).bytes;
    } else {
      var (m, e) := (|es| - 1, es[|es| - 1]);
      FillAfter(dir, cookie, es[..m], room);
      if |Records(es)| <= room {
        var left := room - |Records(es[..m])|;
        FillItem(dir, Cookie(cookie, es[..m]), e, left);
        var rest := Fill(dir, e.next, left - |Record(e)|);
        assert Records(es[..m]) + (Record(e) + rest.bytes) == Records(es) + rest.bytes;
      }
    }
  }

  /** A call gives a prefix of the records: those of any entries found, cut to the
      buffer. */
  lemma {:induction false} FillIsPrefix(dir: Listing, cookie: u64, es: seq<Entry>, room: nat)
    requires Chain(dir, cookie, es)
    ensures forall e :: e in es ==> |e.name| < TWO_TO_32
    ensures room <= |Records(es)| ==> Fill(dir, cookie, room) == Filled(Records(es)[..room], SUCCESS)
    decreases |es|
  {
    ChainNames(dir, cookie, es);
    if es != [] {
      hide Fill, Record;
      var (m, e) := (|es| - 1, es[|es| - 1]);
      FillIsPrefix(dir, cookie, es[..m], room);
      if |Records(es[..m])| < room <= |Records(es)| {
        FillAfter(dir, cookie, es[..m], room);
        var left := room - |Records(es[..m])|;
        FillItem(dir, Cookie(cookie, es[..m]), e, left);
        assert Records(es[..m]) + Record(e)[..left] == Records(es)[..room];
      } else if room <= |Records(es[..m])| {
        assert Records(es)[..room] == Records(es[..m])[..room];
      }
    }
  }

  /** A listing that ends after the entries: the buffer holds the smaller of its own
      size and that of the records, and an error counts only where it is reached. */
  lemma FillIsExact(dir: Listing, cookie: u64, es: seq<Entry>, room: nat)
    requires Chain(dir, cookie, es) && Stop(dir, cookie, es).Some?
    ensures forall e :: e in es ==> |e.name| < TWO_TO_32
    ensures var all := Records(es);
            Fill(dir, cookie, room) ==
            if room <= |all| then Filled(all[..room], SUCCESS) else Filled(all, Stop(dir, cookie, es).value)
  {
    FillIsPrefix(dir, cookie, es, room);
    if room > |Records(es)| {
      FillAfter(dir, cookie, es, room);
      assert Records(es) + [] == Records(es);
    }
  }

  /** Every call is such a case: the buffer is filled by finitely many entries. */
  lemma {:induction false} FillEnds(dir: Listing, cookie: u64, room: nat) returns (es: seq<Entry>)
    ensures Chain(dir, cookie, es) && forall e :: e in es ==> |e.name| < TWO_TO_32
    ensures room <= |Records(es)| || Stop(dir, cookie, es).Some?
  {
    es := [];
    while |Records(es)| < room && Stop(dir, cookie, es).None?
      invariant Chain(dir, cookie, es) && forall e :: e in es ==> |e.name| < TWO_TO_32
      decreases room - |Records(es)|
    {
      var e := dir(Cookie(cookie, es)).entry;
      assert (es + [e])[..|es|] == es;
      es := es + [e];
    }
  }

  // ----- reading the records back -----

  /** The complete entries in a buffer, as a guest reads them. */
  function Parse(bs: Bytes): seq<Entry>
    decreases |bs|
  {
    if |bs| < HEADER || |bs| < HEADER + NameLength(bs) then []
    else [ParseOne(bs)] + Parse(bs[HEADER + NameLength(bs)..])
  }

  function NameLength(bs: Bytes): nat
    requires |bs| >= HEADER
  {
    FromLE(bs[16..20])
  }

  function ParseOne(bs: Bytes): Entry
    requires |bs| >= HEADER && |bs| >= HEADER + NameLength(bs)
  {
    Entry(FromLE(bs[..8]) % TWO_TO_64, FromLE(bs[8..16]) % TWO_TO_64, bs[20], bs[HEADER..HEADER + NameLength(bs)])
  }

  /** A header says how long the name after it is, whatever follows. */
  lemma HeaderLength(e: Entry, bs: Bytes)
    requires |e.name| < TWO_TO_32 && |bs| >= HEADER && bs[..HEADER] == Header(e)
    ensures NameLength(bs) == |e.name|
    ensures FromLE(bs[..8]) == e.next && FromLE(bs[8..16]) == e.ino && bs[20] == e.kind
  {
    hide ToLE, FromLE;
    var h := Header(e);
    assert bs[..8] == h[..8] == ToLE(e.next, 8);
    assert bs[8..16] == h[8..16] == ToLE(e.ino, 8);
    assert bs[16..20] == h[16..20] == ToLE(|e.name|, 4);
    assert bs[20] == h[20];
    LEBack(|e.name|);
    LongBack(e.next);
    LongBack(e.ino);
  }

  lemma ParseRecord(e: Entry, rest: Bytes)
    requires |e.name| < TWO_TO_32
    ensures Parse(Record(e) + rest) == [e] + Parse(rest)
  {
    hide Header;
    var bs := Record(e) + rest;
    assert bs[..HEADER] == Header(e);
    HeaderLength(e, bs);
    assert bs[HEADER..HEADER + |e.name|] == e.name && bs[HEADER + |e.name|..] == rest;
  }

  lemma ParsePartial(e: Entry, n: nat)
    requires |e.name| < TWO_TO_32 && n < |Record(e)|
    ensures Parse(Record(e)[..n]) == []
  {
    hide Header;
    var bs := Record(e)[..n];
    if n >= HEADER {
      assert bs[..HEADER] == Header(e);
      HeaderLength(e, bs);
    }
  }

  lemma {:induction false} ParseRecords(es: seq<Entry>, rest: Bytes)
    requires forall e :: e in es ==> |e.name| < TWO_TO_32
    ensures Parse(Records(es) + rest) == es + Parse(rest)
    decreases |es|
  {
    hide Parse, Record;
    if es == [] {
      assert Records(es) + rest == rest;
    } else {
      var (m, e) := (|es| - 1, es[|es| - 1]);
      assert Records(es) + rest == Records(es[..m]) + (Record(e) + rest);
      ParseRecords(es[..m], Record(e) + rest);
      ParseRecord(e, rest);
      assert es[..m] + ([e] + Parse(rest)) == es + Parse(rest);
    }
  }

  // ----- listing a directory page by page -----

  /** What a guest lists with buffers of a size, each call going on from the last
      complete entry of the one before. */
  function Pages(dir: Listing, cookie: u64, size: nat, n: nat): seq<Entry>
    decreases n
  {
    if n == 0 then []
    else
      var got := Parse(Fill(dir, cookie, size).bytes);
      got + Pages(dir, Cookie(cookie, got), size, n - 1)
  }

  /** How many of the entries fit a buffer. */
  function Fitting(es: seq<Entry>, size: nat): (k: nat)
    requires forall e :: e in es ==> |e.name| < TWO_TO_32
    ensures k <= |es| && |Records(es[..k])| <= size
    ensures k < |es| ==> size < |Records(es[..k + 1])|
  {
    if es == [] then 0
    else if |Records(es)| <= size then
      assert es[..|es|] == es;
      |es|
    else
      var m := |es| - 1;
      var k := Fitting(es[..m], size);
      assert es[..m][..k] == es[..k] && (k < m ==> es[..m][..k + 1] == es[..k + 1]) && es[..|es|] == es;
      k
  }

  /** A page gives exactly the entries that fit. */
  lemma PageIs(dir: Listing, cookie: u64, es: seq<Entry>, size: nat)
    requires Chain(dir, cookie, es) && dir(Cookie(cookie, es)) == End
    ensures forall e :: e in es ==> |e.name| < TWO_TO_32
    ensures Parse(Fill(dir, cookie, size).bytes) == es[..Fitting(es, size)]
  {
    hide Fill, Record, Parse, Records, Fitting, Chain;
    ChainNames(dir, cookie, es);
    FillIsExact(dir, cookie, es, size);
    var k := Fitting(es, size);
    if k == |es| {
      assert es[..k] == es;
      ParseWhole(es);
      assert Records(es)[..|Records(es)|] == Records(es);
    } else {
      ParseCut(es, k, size);
      RecordsSplit(es, k + 1);
    }
  }

  lemma ParseWhole(es: seq<Entry>)
    requires forall e :: e in es ==> |e.name| < TWO_TO_32
    ensures Parse(Records(es)) == es
  {
    hide Records;
    ParseRecords(es, []);
    assert Records(es) + [] == Records(es) && es + [] == es;
  }

  /** Cutting inside a record loses that entry and the later ones. */
  lemma ParseCut(es: seq<Entry>, k: nat, size: nat)
    requires k < |es| && forall e :: e in es ==> |e.name| < TWO_TO_32
    requires |Records(es[..k])| <= size < |Records(es[..k + 1])|
    ensures size < |Records(es)| && Parse(Records(es)[..size]) == es[..k]
  {
    hide Record, Parse;
    RecordsSplit(es, k + 1);
    assert es[..k + 1][..k] == es[..k];
    var r := size - |Records(es[..k])|;
    assert Records(es[..k + 1]) == Records(es[..k]) + Record(es[k]);
    assert Records(es)[..size] == Records(es[..k + 1])[..size] == Records(es[..k]) + Record(es[k])[..r];
    ParsePartial(es[k], r);
    ParseRecords(es[..k], Record(es[k])[..r]);
  }

  lemma {:induction false} RecordsSplit(es: seq<Entry>, k: nat)
    requires k <= |es| && forall e :: e in es ==> |e.name| < TWO_TO_32
    ensures |Records(es[..k])| <= |Records(es)| && Records(es[..k]) == Records(es)[..|Records(es[..k])|]
    decreases |es|
  {
    hide Record;
    if k == |es| {
      assert es[..k] == es;
    } else {
      var m := |es| - 1;
      RecordsSplit(es[..m], k);
      assert es[..m][..k] == es[..k];
    }
  }

  lemma {:induction false} ChainSplit(dir: Listing, cookie: u64, es: seq<Entry>, k: nat)
    requires Chain(dir, cookie, es) && k <= |es|
    ensures Chain(dir, cookie, es[..k]) && Chain(dir, Cookie(cookie, es[..k]), es[k..])
    ensures Cookie(Cookie(cookie, es[..k]), es[k..]) == Cookie(cookie, es)
    decreases |es|
  {
    if k == |es| {
      assert es[..k] == es && es[k..] == [];
    } else {
      var m := |es| - 1;
      ChainSplit(dir, cookie, es[..m], k);
      assert es[..m][..k] == es[..k] && es[..m][k..] == es[k..][..m - k];
    }
  }

  lemma PagesNext(dir: Listing, cookie: u64, size: nat, n: nat)
    requires n > 0
    ensures var got := Parse(Fill(dir, cookie, size).bytes);
            Pages(dir, cookie, size, n) == got + Pages(dir, Cookie(cookie, got), size, n - 1)
  {
    hide Parse, Fill, Cookie;
  }

  predicate EachFits(es: seq<Entry>, size: nat) {
    forall i :: 0 <= i < |es| ==> HEADER + |es[i].name| <= size
  }

  /** Listing by pages gives every entry once and in order, with buffers that hold
      the longest record. */
  lemma {:induction false} PagesCover(dir: Listing, cookie: u64, es: seq<Entry>, size: nat, n: nat)
    requires Chain(dir, cookie, es) && dir(Cookie(cookie, es)) == End
    requires EachFits(es, size) && |es| <= n
    ensures Pages(dir, cookie, size, n) == es
    decreases n
  {
    hide Fill, Parse, Chain, Cookie, EachFits;
    if n > 0 {
      PagesNext(dir, cookie, size, n);
      var k := PageStep(dir, cookie, es, size);
      PagesCover(dir, Cookie(cookie, es[..k]), es[k..], size, n - 1);
      assert es[..k] + es[k..] == es;
    }
  }

  /** A page is a start of what is left, not empty while there is something left. */
  lemma PageStep(dir: Listing, cookie: u64, es: seq<Entry>, size: nat) returns (k: nat)
    requires Chain(dir, cookie, es) && dir(Cookie(cookie, es)) == End
    requires EachFits(es, size)
    ensures k <= |es| && EachFits(es[k..], size) && (es != [] ==> k > 0) && Parse(Fill(dir, cookie, size).bytes) == es[..k]
    ensures Chain(dir, Cookie(cookie, es[..k]), es[k..]) && dir(Cookie(Cookie(cookie, es[..k]), es[k..])) == End
  {
    hide Fill, Parse, Record, Records, Fitting, Chain;
    PageIs(dir, cookie, es, size);
    ChainNames(dir, cookie, es);
    k := Fitting(es, size);
    ChainSplit(dir, cookie, es, k);
    if es != [] { FirstFits(es, size); }
  }

  lemma FirstFits(es: seq<Entry>, size: nat)
    requires es != [] && (forall e :: e in es ==> |e.name| < TWO_TO_32) && HEADER + |es[0].name| <= size
    ensures |Records(es[..1])| <= size
  {
    assert es[..1][..0] == [] && es[..1][0] == es[0];
  }

  // ----- the call -----

  /** The error code and the memory after a call. */
  function DirectoryRead<R>(b: Backend<R>, list: R -> Listing, ds: Table<R>, mem: Option<Bytes>,
                            fd: Fd, bufPtr: u32, bufLen: u32, cookie: u64, usedPtr: u32): (nat, Option<Bytes>)
  {
    if fd !in ds then (BADF, mem)
    else if RIGHT_FD_READDIR !in ds[fd].base then (NOTCAPABLE, mem)
    else if !b.directory(ds[fd].resource) then (NOTDIR, mem)
    else if mem.None? || !InBounds(mem.value, usedPtr, 4) || !InBounds(mem.value, bufPtr, bufLen) then (FAULT, mem)
    else
      var f := Fill(list(ds[fd].resource), cookie, bufLen);
      var filled := Written(mem.value, bufPtr, f.bytes);
      if f.errno != SUCCESS then (f.errno, Some(filled))
      else (SUCCESS, Some(Written(filled, usedPtr, ToLE(|f.bytes|, 4))))
  }

  /** A successful call: the count is the smaller of the buffer and the listing, the
      buffer starts with that much of the listing, and no other byte changes. */
  lemma ReadReports<R>(b: Backend<R>, list: R -> Listing, ds: Table<R>, mem: Bytes, fd: Fd, bufPtr: u32, bufLen: u32,
                       cookie: u64, usedPtr: u32, es: seq<Entry>)
    requires DirectoryRead(b, list, ds, Some(mem), fd, bufPtr, bufLen, cookie, usedPtr).0 == SUCCESS
    requires usedPtr + 4 <= bufPtr || bufPtr + bufLen <= usedPtr
    requires Chain(list(ds[fd].resource), cookie, es) && Stop(list(ds[fd].resource), cookie, es).Some?
    ensures forall e :: e in es ==> |e.name| < TWO_TO_32
    ensures var out := DirectoryRead(b, list, ds, Some(mem), fd, bufPtr, bufLen, cookie, usedPtr).1.value;
            var used := if bufLen < |Records(es)| then bufLen else |Records(es)|;
            && |out| == |mem| && InBounds(mem, usedPtr, 4) && InBounds(mem, bufPtr, bufLen)
            && FromLE(out[usedPtr..usedPtr + 4]) == used
            && out[bufPtr..bufPtr + used] == Records(es)[..used]
            && forall i :: 0 <= i < |mem| && !(bufPtr <= i < bufPtr + used) && !(usedPtr <= i < usedPtr + 4) ==> out[i] == mem[i]
  {
    hide Fill, Records, Record, Chain, Stop, ToLE, FromLE;
    FillIsExact(list(ds[fd].resource), cookie, es, bufLen);
    var f := Fill(list(ds[fd].resource), cookie, bufLen);
    ReportsApart(mem, bufPtr, f.bytes, usedPtr, ToLE(|f.bytes|, 4));
    LEBack(|f.bytes|);
  }

  lemma ReportsApart(mem: Bytes, at: nat, bs: Bytes, usedPtr: nat, word: Bytes)
    requires at + |bs| <= |mem| && usedPtr + |word| <= |mem| && (usedPtr + |word| <= at || at + |bs| <= usedPtr)
    ensures var out := Written(Written(mem, at, bs), usedPtr, word);
            && out[usedPtr..usedPtr + |word|] == word && out[at..at + |bs|] == bs
            && forall i :: 0 <= i < |mem| && !(at <= i < at + |bs|) && !(usedPtr <= i < usedPtr + |word|) ==> out[i] == mem[i]
  {
    var filled := Written(mem, at, bs);
    forall i | 0 <= i < |bs| ensures Written(filled, usedPtr, word)[at + i] == bs[i] {
      assert filled[at..at + |bs|][i] == bs[i];
      WrittenApart(filled, usedPtr, word, at + i);
    }
  }

  method FdReadDir<R>(b: Backend<R>, list: R -> Listing, ds: Table<R>, memory: array?<byte>,
                      fd: Fd, bufPtr: u32, bufLen: u32, cookie: u64, usedPtr: u32) returns (errno: nat)
    modifies memory
    ensures (errno, if memory == null then None else Some(memory[..])) ==
            DirectoryRead(b, list, ds, if memory == null then None else Some(old(memory[..])), fd, bufPtr, bufLen, cookie, usedPtr)
  {
    if fd !in ds { return BADF; }
    if RIGHT_FD_READDIR !in ds[fd].base { return NOTCAPABLE; }
    if !b.directory(ds[fd].resource) { return NOTDIR; }
    if memory == null || usedPtr + 4 > memory.Length || bufPtr + bufLen > memory.Length { return FAULT; }
    var used;
    errno, used := FillBuffer(list(ds[fd].resource), cookie, memory, bufPtr, bufLen);
    if errno != SUCCESS { return; }
    WriteBytes(memory, usedPtr, ToLE(used, 4));
  }

  /** `done` is what the buffer has so far, and the listing goes on at `cookie`. */
  ghost predicate Ongoing(dir: Listing, start: u64, size: nat, cookie: u64, done: Bytes) {
    && |done| <= size
    && var rest := Fill(dir, cookie, size - |done|);
    Fill(dir, start, size) == Filled(done + rest.bytes, rest.errno)
  }

  lemma OngoingStarts(dir: Listing, start: u64, size: nat)
    ensures Ongoing(dir, start, size, start, [])
  {
    assert [] + Fill(dir, start, size).bytes == Fill(dir, start, size).bytes;
  }

  lemma OngoingStops(dir: Listing, start: u64, size: nat, cookie: u64, done: Bytes)
    requires Ongoing(dir, start, size, cookie, done) && |done| < size
    ensures Stop(dir, cookie, []).Some? ==> Fill(dir, start, size) == Filled(done, Stop(dir, cookie, []).value)
  {
    FillStops(dir, cookie, size - |done|);
    assert done + [] == done;
  }

  lemma FullOngoing(dir: Listing, start: u64, size: nat, cookie: u64, done: Bytes)
    ensures Ongoing(dir, start, size, cookie, done) && |done| == size ==> Fill(dir, start, size) == Filled(done, SUCCESS)
  {
    FillStops(dir, cookie, 0);
    assert done + [] == done;
  }

  lemma OngoingItem(dir: Listing, start: u64, size: nat, cookie: u64, done: Bytes, e: Entry)
    requires Ongoing(dir, start, size, cookie, done) && dir(cookie) == Item(e) && |e.name| < TWO_TO_32
    ensures var room := size - |done|;
            && (|Record(e)| <= room ==> Ongoing(dir, start, size, e.next, done + Record(e)[..|Record(e)|]))
            && (room <= |Record(e)| ==> Fill(dir, start, size) == Filled(done + Record(e)[..room], SUCCESS))
  {
    hide Fill, Record;
    var room := size - |done|;
    FillItem(dir, cookie, e, room);
    if |Record(e)| <= room {
      var rest := Fill(dir, e.next, room - |Record(e)|);
      assert Record(e)[..|Record(e)|] == Record(e);
      assert done + (Record(e) + rest.bytes) == done + Record(e) + rest.bytes;
    }
  }

  /** Copies headers and names until the buffer is full or the listing stops. */
  method FillBuffer(dir: Listing, start: u64, memory: array<byte>, at: nat, size: nat) returns (errno: nat, used: nat)
    requires at + size <= memory.Length
    modifies memory
    ensures var f := Fill(dir, start, size);
            errno == f.errno && used == |f.bytes| && memory[..] == Written(old(memory[..]), at, f.bytes)
  {
    hide Fill, Header, Record, Written, Ongoing;
    var cookie := start;
    used := 0;
    ghost var done: Bytes := [];
    WrittenNothing(memory[..], at);
    OngoingStarts(dir, start, size);
    while used < size
      invariant used == |done| <= size && Ongoing(dir, start, size, cookie, done)
      invariant memory[..] == Written(old(memory[..]), at, done)
      decreases size - used
    {
      OngoingStops(dir, start, size, cookie, done);
      var item;
      match dir(cookie) {
        case End => break;
        case Failed(error) => return ListErrorCode(error), used;
        case Item(e) => item := e;
      }
      if |item.name| >= TWO_TO_32 { return OVERFLOW, used; }
      OngoingItem(dir, start, size, cookie, done, item);
      var n := CopyRecord(memory, at + used, size - used, item);
      WrittenTwice(old(memory[..]), at, done, Record(item)[..n]);
      used := used + n;
      done := done + Record(item)[..n];
      if n < HEADER + |item.name| { break; }
      cookie := item.next;
    }
    FullOngoing(dir, start, size, cookie, done);
    errno := SUCCESS;
  }

  /** Copies as much of a record as there is room for: the header, then the name. */
  method CopyRecord(memory: array<byte>, at: nat, room: nat, item: Entry) returns (n: nat)
    requires |item.name| < TWO_TO_32 && at + room <= memory.Length
    modifies memory
    ensures n == if room < |Record(item)| then room else |Record(item)|
    ensures memory[..] == Written(old(memory[..]), at, Record(item)[..n])
  {
    hide Header, Written;
    var header := Header(item);
    n := if HEADER < room then HEADER else room;
    WriteBytes(memory, at, header[..n]);
    assert n < HEADER ==> Record(item)[..n] == header[..n];
    if n < HEADER { return; }
    var copied := if |item.name| < room - n then |item.name| else room - n;
    WrittenTwice(old(memory[..]), at, header, item.name[..copied]);
    assert header[..n] == header && header + item.name[..copied] == Record(item)[..n + copied];
    WriteBytes(memory, at + n, item.name[..copied]);
    n := n + copied;
  }
}
