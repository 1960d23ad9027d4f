/** The in-line half of putc and getc in stdio.h: one counter that serves the fully buffered,
    line buffered and unbuffered modes, written once as a function and once as a macro.
 */
module StdioPut {

  /** The part of struct __sFILE that the macros look at. `p` is counted from `_bf._base`, `buf` is
      the buffer with its size, `sink` is what has reached the underlying file, and `src` is what the
      file has still to give. */
  datatype File = File(
    p: int, r: int, w: int,
    lbf: bool, nbf: bool, rd: bool, wr: bool,
    lbfsize: int, buf: seq<nat>, sink: seq<nat>, src: seq<nat>)

  const INT_MAX: int := 0x7fff_ffff
  const NEWLINE: nat := 10
  const EOF: int := -1

  /** Conversion of an int to unsigned char. */
  function Byte(c: int): nat { c % 256 }

  function Fetch(buf: seq<nat>, at: int): nat
  {
    if 0 <= at < |buf| then buf[at] else 0
  }

  function Store(buf: seq<nat>, at: int, b: nat): (r: seq<nat>)
    ensures |r| == |buf|
  {
    if 0 <= at < |buf| then buf[at := b] else buf
  }

  // ---- Invariants

  /** The position, the rule for _lbfsize, and "RD and WR are never simultaneously asserted". */
  predicate Shape(f: File)
  {
    && 0 <= f.p <= |f.buf| <= INT_MAX
    && !(f.rd && f.wr)
    && f.lbfsize == (if f.lbf && f.wr then -|f.buf| else 0)
  }

  /** _w never promises more than is left in the buffer; there is no write space outside write mode
      and none in an unbuffered stream. */
  predicate WriteSpace(f: File)
  {
    && f.lbfsize <= f.w <= |f.buf| + f.lbfsize - f.p
    && (!f.wr ==> f.w == 0)
    && (f.nbf ==> f.w == f.lbfsize)
  }

  /** _r never promises more than is left in the buffer, and nothing outside read mode. */
  predicate ReadSpace(f: File)
  {
    0 <= f.r <= |f.buf| - f.p && (!f.rd ==> f.r == 0)
  }

  predicate Good(f: File)
  {
    Shape(f) && WriteSpace(f) && ReadSpace(f)
  }

  /** A buffered stream in write mode whose counter promises all that is left. */
  predicate Settled(f: File)
  {
    f.wr && !f.nbf && f.p + f.w == |f.buf| + f.lbfsize
  }

  // ---- What was written

  /** The bytes of the buffer that are waiting to be written out. */
  function Pending(f: File): seq<nat>
  {
    if f.wr && 0 <= f.p <= |f.buf| then f.buf[..f.p] else []
  }

  function Output(f: File): seq<nat> { f.sink + Pending(f) }

  /** What is still to be read: the unread part of the buffer, then the rest of the file. */
  function Unread(f: File): seq<nat>
  {
    (if f.rd && 0 <= f.p && 0 <= f.r && f.p + f.r <= |f.buf| then f.buf[f.p..f.p + f.r] else []) + f.src
  }

  predicate SameFields(f: File, g: File)
  {
    && f.p == g.p && f.r == g.r && f.w == g.w && f.lbfsize == g.lbfsize
    && f.lbf == g.lbf && f.nbf == g.nbf && f.rd == g.rd && f.wr == g.wr
    && |f.buf| == |g.buf| && f.sink == g.sink && f.src == g.src
  }

  /** The same stream up to buffer bytes that are neither pending nor readable. */
  predicate Same(f: File, g: File)
  {
    && SameFields(f, g)
    && (f.wr ==> forall i | 0 <= i < f.p :: Fetch(f.buf, i) == Fetch(g.buf, i))
    && (f.rd ==> forall i | 0 <= i < f.p + f.r :: Fetch(f.buf, i) == Fetch(g.buf, i))
  }

  // ---- The library behind the macros

  datatype Reply = Reply(file: File, ret: int)

  /** __swbuf and __srget. */
  datatype Library = Library(swbuf: (int, File) -> Reply, srget: File -> Reply)

  /** Both re-establish the invariants, whatever they are called with and whether or not they
      succeed. */
  ghost predicate Restores(lib: Library)
  {
    && (forall c, f :: Shape(f) && ReadSpace(f) ==> Good(lib.swbuf(c, f).file))
    && (forall f :: Shape(f) && WriteSpace(f) ==> Good(lib.srget(f).file))
  }

  /** Neither looks at dead bytes of the buffer, and __swbuf looks at the low byte only. */
  ghost predicate Respects(lib: Library)
  {
    && (forall c, d, f :: Byte(c) == Byte(d) ==> lib.swbuf(c, f) == lib.swbuf(d, f))
    && (forall c, f, g :: Same(f, g) && Shape(f) ==> Same(lib.swbuf(c, f).file, lib.swbuf(c, g).file))
    && (forall c, f, g :: Same(f, g) && Shape(f) ==> lib.swbuf(c, f).ret == lib.swbuf(c, g).ret)
    && (forall f, g :: Same(f, g) && Shape(f) ==> Same(lib.srget(f).file, lib.srget(g).file))
    && (forall f, g :: Same(f, g) && Shape(f) ==> lib.srget(f).ret == lib.srget(g).ret)
  }

  /** A success of __swbuf appends its byte, and a success of __srget drops none that wait to be
      written. */
  ghost predicate Delivers(lib: Library)
  {
    && (forall c, f :: Shape(f) && lib.swbuf(c, f).ret != EOF ==>
          lib.swbuf(c, f).ret == Byte(c) && Output(lib.swbuf(c, f).file) == Output(f) + [Byte(c)])
    && (forall f :: Shape(f) && lib.srget(f).ret != EOF ==> Output(lib.srget(f).file) == Output(f))
  }

  /** A success of __srget, called with nothing left in the buffer, gives the next byte and keeps the
      others in order. */
  ghost predicate Feeds(lib: Library)
  {
    forall f :: Shape(f) && f.r < 0 && lib.srget(f).ret != EOF ==>
      lib.srget(f).ret >= 0 && [lib.srget(f).ret] + Unread(lib.srget(f).file) == Unread(f)
  }

  // ---- One call

  /** What one call did: where it wrote and read the buffer itself, and whether it went to the
      library. */
  datatype Outcome = Outcome(file: File, ret: int, called: bool, stores: set<int>, loads: set<int>)

  function Deferred(reply: Reply, stores: set<int>): Outcome
  {
    Outcome(reply.file, reply.ret, true, stores, {})
  }

  function Advance(f: File, w: int, b: nat): Outcome
  {
    Outcome(f.(w := w, buf := Store(f.buf, f.p, b), p := f.p + 1), b, false, {f.p}, {})
  }

  /** The guard of the inline function, on the decremented counter. */
  predicate Direct(f: File, c: int)
  {
    f.w - 1 >= 0 || (f.w - 1 >= f.lbfsize && Byte(c) != NEWLINE)
  }

  function PutInline(f: File, c: int, lib: Library): Outcome
  {
    if Direct(f, c) then Advance(f, f.w - 1, Byte(c))
    else Deferred(lib.swbuf(c, f.(w := f.w - 1)), {})
  }

  function PutMacro(f: File, c: int, lib: Library): Outcome
  {
    var w := f.w - 1;
    if w >= 0 then Advance(f, w, Byte(c))
    else if w < f.lbfsize then Deferred(lib.swbuf(c, f.(w := w)), {})
    else
      var stored := Store(f.buf, f.p, Byte(c));
      if Fetch(stored, f.p) != NEWLINE then Advance(f, w, Byte(c))
      else Deferred(lib.swbuf(NEWLINE, f.(w := w, buf := stored)), {f.p})
  }

  function GetChar(f: File, lib: Library): Outcome
  {
    if f.r - 1 < 0 then Deferred(lib.srget(f.(r := f.r - 1)), {})
    else Outcome(f.(r := f.r - 1, p := f.p + 1), Fetch(f.buf, f.p), false, {}, {f.p})
  }

  /** Every byte the call touched itself lies in the buffer, and was touched in the right mode. */
  predicate Safe(f: File, o: Outcome)
  {
    && (forall at | at in o.stores :: 0 <= at < |f.buf| && f.wr && !f.rd && !f.nbf)
    && (forall at | at in o.loads :: 0 <= at < |f.buf| && f.rd && !f.wr)
  }

  // ---- The counter trick

  /** A direct store needs write mode, a buffer, room, and in a line buffered stream another byte
      than newline; in a settled stream nothing else is needed. */
  lemma DirectExactly(f: File, c: int)
    requires Good(f)
    ensures Direct(f, c) ==> f.wr && !f.nbf && f.p < |f.buf| && !(f.lbf && Byte(c) == NEWLINE)
    ensures Settled(f) ==> (Direct(f, c) <==> f.p < |f.buf| && !(f.lbf && Byte(c) == NEWLINE))
  {
  }

  /** A direct store keeps the invariants, keeps a settled stream settled, and commits its byte; the
      decrement stays within an int. */
  lemma DirectKeeps(f: File, c: int)
    requires Good(f)
    ensures -INT_MAX - 1 <= f.w - 1
    ensures Direct(f, c) ==> Good(Advance(f, f.w - 1, Byte(c)).file)
    ensures Direct(f, c) && Settled(f) ==> Settled(Advance(f, f.w - 1, Byte(c)).file)
    ensures Direct(f, c) ==> Output(Advance(f, f.w - 1, Byte(c)).file) == Output(f) + [Byte(c)]
  {
  }

  // ---- Whole runs

  /** A call, and how the library would behave if this call went to it. */
  datatype Call = Put(c: int, lib: Library) | Get(lib: Library)

  datatype Form = Inline | Macro

  function Perform(form: Form, f: File, call: Call): Outcome
  {
    match call
    case Get(lib) => GetChar(f, lib)
    case Put(c, lib) => if form.Inline? then PutInline(f, c, lib) else PutMacro(f, c, lib)
  }

  /** The stream before each call of a run, and at its end. */
  function States(form: Form, f: File, calls: seq<Call>): (fs: seq<File>)
    ensures |fs| == |calls| + 1 && fs[0] == f
    decreases |calls|
  {
    if |calls| == 0 then [f]
    else [f] + States(form, Perform(form, f, calls[0]).file, calls[1..])
  }

  function Asked(call: Call): seq<nat>
  {
    if call.Put? then [Byte(call.c)] else []
  }

  /** The bytes that a run is asked to write. */
  function Written(calls: seq<Call>): seq<nat>
  {
    if |calls| == 0 then []
    else Asked(calls[0]) + Written(calls[1..])
  }

  ghost predicate AllRestore(calls: seq<Call>) { forall i | 0 <= i < |calls| :: Restores(calls[i].lib) }
  ghost predicate AllRespect(calls: seq<Call>) { forall i | 0 <= i < |calls| :: Respects(calls[i].lib) }
  ghost predicate AllDeliver(calls: seq<Call>) { forall i | 0 <= i < |calls| :: Delivers(calls[i].lib) }

  lemma InlineSafe(f: File, c: int, lib: Library)
    requires Good(f) && Restores(lib)
    ensures Good(PutInline(f, c, lib).file) && Safe(f, PutInline(f, c, lib))
  {
    DirectExactly(f, c);
    DirectKeeps(f, c);
  }

  lemma MacroSafe(f: File, c: int, lib: Library)
    requires Good(f) && Restores(lib)
    ensures Good(PutMacro(f, c, lib).file) && Safe(f, PutMacro(f, c, lib))
  {
    DirectExactly(f, c);
    DirectKeeps(f, c);
  }

  lemma GetSafe(f: File, lib: Library)
    requires Good(f) && Restores(lib)
    ensures Good(GetChar(f, lib).file) && Safe(f, GetChar(f, lib))
  {
  }

  /** When the library is called: for a put that cannot be stored directly, and for a get that finds
      nothing in the buffer. */
  lemma CallsExactly(form: Form, f: File, call: Call)
    requires Good(f)
    ensures Perform(form, f, call).called <==> if call.Put? then !Direct(f, call.c) else f.r == 0
  {
  }

  lemma PerformSafe(form: Form, f: File, call: Call)
    requires Good(f) && Restores(call.lib)
    ensures Good(Perform(form, f, call).file) && Safe(f, Perform(form, f, call))
  {
    hide Good, Restores, Safe, PutInline, PutMacro, GetChar;
    match call
    case Put(c, lib) => InlineSafe(f, c, lib); MacroSafe(f, c, lib);
    case Get(lib) => GetSafe(f, lib);
  }

  /** In either form no run touches a byte outside the buffer, stores directly in a stream that is
      in read mode or unbuffered, or reads directly from one in write mode. */
  lemma {:induction false} RunSafe(form: Form, f: File, calls: seq<Call>)
    requires Good(f) && AllRestore(calls)
    ensures forall i | 0 <= i <= |calls| :: Good(States(form, f, calls)[i])
    ensures forall i | 0 <= i < |calls| :: Safe(States(form, f, calls)[i], Perform(form, States(form, f, calls)[i], calls[i]))
    decreases |calls|
  {
    hide Restores, Good, Safe, Perform;
    if |calls| > 0 {
      PerformSafe(form, f, calls[0]);
      RunSafe(form, Perform(form, f, calls[0]).file, calls[1..]);
    }
  }

  /** Two outcomes that a caller, the library and the file cannot tell apart. */
  predicate Alike(o: Outcome, o': Outcome)
  {
    Same(o.file, o'.file) && o.ret == o'.ret && o.called == o'.called
  }

  lemma SameOutput(f: File, g: File)
    requires Same(f, g)
    ensures Output(f) == Output(g)
  {
    if f.wr && 0 <= f.p <= |f.buf| {
      assert forall i | 0 <= i < f.p :: f.buf[i] == Fetch(f.buf, i) && g.buf[i] == Fetch(g.buf, i);
      assert f.buf[..f.p] == g.buf[..f.p];
    }
  }

  lemma AdvanceAlike(f: File, g: File, w: int, b: nat)
    requires Same(f, g) && Good(f) && f.p < |f.buf| && f.wr
    ensures Alike(Advance(f, w, b), Advance(g, w, b))
  {
    var f', g' := Advance(f, w, b).file, Advance(g, w, b).file;
    forall i | 0 <= i < f'.p ensures Fetch(f'.buf, i) == Fetch(g'.buf, i) {
      if i < f.p { assert Fetch(f.buf, i) == Fetch(g.buf, i); }
    }
  }

  lemma CounterAlike(f: File, g: File)
    requires Same(f, g)
    ensures Same(f.(w := f.w - 1), g.(w := g.w - 1))
    ensures Same(f.(r := f.r - 1), g.(r := g.r - 1))
  {
  }

  lemma ParkedAlike(f: File, g: File, b: nat)
    requires Same(f, g) && Good(f) && f.wr
    ensures Same(f.(w := f.w - 1), g.(w := g.w - 1, buf := Store(g.buf, g.p, b)))
  {
  }

  lemma SwbufAlike(lib: Library, c: int, d: int, f: File, g: File)
    requires Respects(lib) && Same(f, g) && Shape(f) && Byte(c) == Byte(d)
    ensures Same(lib.swbuf(c, f).file, lib.swbuf(d, g).file) && lib.swbuf(c, f).ret == lib.swbuf(d, g).ret
  {
  }

  lemma SrgetAlike(lib: Library, f: File, g: File)
    requires Respects(lib) && Same(f, g) && Shape(f)
    ensures Same(lib.srget(f).file, lib.srget(g).file) && lib.srget(f).ret == lib.srget(g).ret
  {
  }

  /** One call by the inline function and by the macro, from streams that are the same up to dead
      bytes. */
  lemma PutAgrees(f: File, g: File, c: int, lib: Library)
    requires Good(f) && Same(f, g) && Respects(lib)
    ensures Alike(PutInline(f, c, lib), PutMacro(g, c, lib))
  {
    hide Respects;
    var w := f.w - 1;
    DirectExactly(f, c);
    CounterAlike(f, g);
    if Direct(f, c) {
      AdvanceAlike(f, g, w, Byte(c));
    } else if w < f.lbfsize {
      SwbufAlike(lib, c, c, f.(w := w), g.(w := w));
    } else {
      ParkedAlike(f, g, Byte(c));
      SwbufAlike(lib, c, NEWLINE, f.(w := w), g.(w := w, buf := Store(g.buf, g.p, Byte(c))));
    }
  }

  lemma GetAgrees(f: File, g: File, lib: Library)
    requires Good(f) && Same(f, g) && Respects(lib)
    ensures Alike(GetChar(f, lib), GetChar(g, lib))
  {
    hide Respects;
    CounterAlike(f, g);
    if f.r - 1 < 0 { SrgetAlike(lib, f.(r := f.r - 1), g.(r := g.r - 1)); }
  }

  lemma PerformAgrees(f: File, g: File, call: Call)
    requires Good(f) && Same(f, g) && Respects(call.lib)
    ensures Alike(Perform(Inline, f, call), Perform(Macro, g, call))
  {
    if call.Put? { PutAgrees(f, g, call.c, call.lib); } else { GetAgrees(f, g, call.lib); }
  }

  /** The two forms go through the same states up to dead bytes, so they agree on _w, _p and the
      committed bytes throughout; each call returns the same value and goes to the library in both
      or in neither. */
  lemma {:induction false} FormsAgree(f: File, g: File, calls: seq<Call>)
    requires Good(f) && Same(f, g) && AllRestore(calls) && AllRespect(calls)
    ensures forall i | 0 <= i <= |calls| :: Same(States(Inline, f, calls)[i], States(Macro, g, calls)[i])
    ensures forall i | 0 <= i < |calls| ::
      Alike(Perform(Inline, States(Inline, f, calls)[i], calls[i]), Perform(Macro, States(Macro, g, calls)[i], calls[i]))
    decreases |calls|
  {
    hide Restores, Respects, Good, Perform, Same;
    PerformAlways(f, g, calls);
    if |calls| > 0 {
      var o, o' := Perform(Inline, f, calls[0]), Perform(Macro, g, calls[0]);
      PerformSafe(Inline, f, calls[0]);
      FormsAgree(o.file, o'.file, calls[1..]);
    }
  }

  lemma PerformAlways(f: File, g: File, calls: seq<Call>)
    requires Good(f) && Same(f, g) && AllRespect(calls)
    ensures |calls| > 0 ==> Alike(Perform(Inline, f, calls[0]), Perform(Macro, g, calls[0]))
  {
    if |calls| > 0 { PerformAgrees(f, g, calls[0]); }
  }

  lemma PerformDelivers(form: Form, f: File, call: Call)
    requires Good(f) && Delivers(call.lib) && Perform(form, f, call).ret != EOF
    ensures Output(Perform(form, f, call).file) == Output(f) + Asked(call)
    ensures call.Put? ==> Perform(form, f, call).ret == Byte(call.c)
  {
  }

  /** No call of the run returns EOF. */
  predicate NoErrors(form: Form, f: File, calls: seq<Call>)
  {
    forall i | 0 <= i < |calls| :: Perform(form, States(form, f, calls)[i], calls[i]).ret != EOF
  }

  lemma NoErrorsTail(form: Form, f: File, calls: seq<Call>)
    requires NoErrors(form, f, calls) && |calls| > 0
    ensures Perform(form, f, calls[0]).ret != EOF
    ensures NoErrors(form, Perform(form, f, calls[0]).file, calls[1..])
  {
  }

  lemma Regroup(a: seq<nat>, b: seq<nat>, c: seq<nat>)
    ensures (a + b) + c == a + (b + c)
  {
  }

  /** A run in which no call reports an error appends to the output exactly the bytes it was given,
      in order. */
  lemma {:induction false} StreamKept(form: Form, f: File, calls: seq<Call>)
    requires Good(f) && AllRestore(calls) && AllDeliver(calls) && NoErrors(form, f, calls)
    ensures Output(States(form, f, calls)[|calls|]) == Output(f) + Written(calls)
    decreases |calls|
  {
    hide Restores, Delivers, Good, Perform, Output, NoErrors, Asked;
    if |calls| > 0 {
      var g := Perform(form, f, calls[0]).file;
      NoErrorsTail(form, f, calls);
      PerformSafe(form, f, calls[0]);
      PerformDelivers(form, f, calls[0]);
      StreamKept(form, g, calls[1..]);
      Regroup(Output(f), Asked(calls[0]), Written(calls[1..]));
    }
  }

  // ---- Reading

  ghost predicate AllFeed(calls: seq<Call>) { forall i | 0 <= i < |calls| :: Feeds(calls[i].lib) }

  predicate AllGet(calls: seq<Call>) { forall i | 0 <= i < |calls| :: calls[i].Get? }

  /** What the calls of a run return. */
  function Returned(form: Form, f: File, calls: seq<Call>): (rets: seq<int>)
    ensures |rets| == |calls|
    decreases |calls|
  {
    if |calls| == 0 then []
    else [Perform(form, f, calls[0]).ret] + Returned(form, Perform(form, f, calls[0]).file, calls[1..])
  }

  /** The calls of a run that went to the library. */
  function Deferrals(form: Form, f: File, calls: seq<Call>): nat
    decreases |calls|
  {
    if |calls| == 0 then 0
    else (if Perform(form, f, calls[0]).called then 1 else 0) + Deferrals(form, Perform(form, f, calls[0]).file, calls[1..])
  }

  lemma FrontOf(buf: seq<nat>, at: nat, end: nat)
    requires at < end <= |buf|
    ensures buf[at..end] == [buf[at]] + buf[at + 1..end]
  {
  }

  lemma DirectGet(form: Form, f: File, call: Call)
    requires Good(f) && f.rd && call.Get? && f.r > 0
    ensures f.p < |f.buf|
    ensures var o := Perform(form, f, call);
      !o.called && o.ret == f.buf[f.p] && Good(o.file) && o.file == f.(p := f.p + 1, r := f.r - 1)
  {
  }

  /** As long as the buffer lasts, getc returns its bytes one after the other, without the library. */
  lemma {:induction false} BufferReads(form: Form, f: File, calls: seq<Call>)
    requires Good(f) && f.rd && AllGet(calls) && |calls| <= f.r
    ensures Returned(form, f, calls) == f.buf[f.p..f.p + |calls|] && Deferrals(form, f, calls) == 0
    decreases |calls|
  {
    if |calls| > 0 {
      DirectGet(form, f, calls[0]);
      FrontOf(f.buf, f.p, f.p + |calls|);
      hide Perform, Good;
      BufferReads(form, Perform(form, f, calls[0]).file, calls[1..]);
    }
  }

  /** And it leaves the rest of the buffer, and all else, as it was. */
  lemma {:induction false} BufferMoves(form: Form, f: File, calls: seq<Call>)
    requires Good(f) && f.rd && AllGet(calls) && |calls| <= f.r
    ensures States(form, f, calls)[|calls|] == f.(p := f.p + |calls|, r := f.r - |calls|)
    decreases |calls|
  {
    if |calls| > 0 {
      DirectGet(form, f, calls[0]);
      hide Perform, Good;
      BufferMoves(form, Perform(form, f, calls[0]).file, calls[1..]);
    }
  }

  lemma GetFeeds(f: File, lib: Library)
    requires Good(f) && Feeds(lib) && GetChar(f, lib).ret != EOF
    ensures [GetChar(f, lib).ret] + Unread(GetChar(f, lib).file) == Unread(f)
  {
    if f.r - 1 >= 0 {
      var g := GetChar(f, lib).file;
      assert f.buf[f.p..f.p + f.r] == [f.buf[f.p]] + g.buf[g.p..g.p + g.r];
    } else {
      assert Unread(f.(r := f.r - 1)) == Unread(f);
    }
  }

  /** A run of getc without errors returns exactly the next bytes of the stream, in order, across buffer
      and file, and leaves the rest to be read. */
  lemma {:induction false} InputKept(form: Form, f: File, calls: seq<Call>)
    requires Good(f) && AllRestore(calls) && AllFeed(calls) && AllGet(calls) && NoErrors(form, f, calls)
    ensures Returned(form, f, calls) + Unread(States(form, f, calls)[|calls|]) == Unread(f)
    decreases |calls|
  {
    hide Restores, Feeds, Good, Unread, NoErrors;
    if |calls| > 0 {
      var g := Perform(form, f, calls[0]).file;
      NoErrorsTail(form, f, calls);
      PerformSafe(form, f, calls[0]);
      GetFeeds(f, calls[0].lib);
      hide Perform, GetChar;
      InputKept(form, g, calls[1..]);
      RegroupInts([Perform(form, f, calls[0]).ret], Returned(form, g, calls[1..]), Unread(States(form, f, calls)[|calls|]));
    }
  }

  lemma RegroupInts(a: seq<int>, b: seq<int>, c: seq<int>)
    ensures (a + b) + c == a + (b + c)
  {
  }

  /** A call that did not go to the library changed no byte of the buffer but those it names. */
  lemma StoresNamed(form: Form, f: File, call: Call, i: int)
    requires !Perform(form, f, call).called && i !in Perform(form, f, call).stores
    ensures Fetch(Perform(form, f, call).file.buf, i) == Fetch(f.buf, i)
  {
  }

  // ---- The contract can be met

  /** Writes everything out at once. */
  function FlushAndPut(c: int, f: File): Reply
  {
    var lbfsize := if f.lbf then -|f.buf| else 0;
    Reply(
      f.(rd := false, wr := true, p := 0, r := 0, lbfsize := lbfsize,
         w := if f.nbf then lbfsize else |f.buf| + lbfsize, sink := Output(f) + [Byte(c)]),
      Byte(c))
  }

  /** Reads a byte at a time. */
  function FlushAndGet(f: File): Reply
  {
    Reply(
      f.(rd := true, wr := false, p := 0, r := 0, lbfsize := 0, w := 0, sink := Output(f),
         src := if f.src == [] then [] else f.src[1..]),
      if f.src == [] then EOF else f.src[0])
  }

  function WriteThrough(): Library { Library(FlushAndPut, FlushAndGet) }

  lemma ContractCanBeMet()
    ensures Restores(WriteThrough()) && Respects(WriteThrough()) && Delivers(WriteThrough()) && Feeds(WriteThrough())
  {
    WriteThroughRestores();
    WriteThroughRespects();
    WriteThroughDelivers();
    WriteThroughFeeds();
  }

  lemma WriteThroughRestores()
    ensures Restores(WriteThrough())
  {
    hide Output;
  }

  lemma FlushesAlike(c: int, f: File, g: File)
    requires Same(f, g)
    ensures Same(FlushAndPut(c, f).file, FlushAndPut(c, g).file) && Same(FlushAndGet(f).file, FlushAndGet(g).file)
    ensures FlushAndPut(c, f).ret == FlushAndPut(c, g).ret && FlushAndGet(f).ret == FlushAndGet(g).ret
  {
    SameOutput(f, g);
    hide Output;
  }

  lemma WriteThroughRespects()
    ensures Respects(WriteThrough())
  {
    forall c, f, g | Same(f, g)
      ensures Same(FlushAndPut(c, f).file, FlushAndPut(c, g).file) && FlushAndPut(c, f).ret == FlushAndPut(c, g).ret
    {
      FlushesAlike(c, f, g);
    }
    forall f, g | Same(f, g)
      ensures Same(FlushAndGet(f).file, FlushAndGet(g).file) && FlushAndGet(f).ret == FlushAndGet(g).ret
    {
      FlushesAlike(0, f, g);
    }
    assert forall c, d, f :: Byte(c) == Byte(d) ==> FlushAndPut(c, f) == FlushAndPut(d, f);
    hide Same, FlushAndPut, FlushAndGet, Shape, Byte;
  }

  lemma GetFeedsOne(f: File)
    requires f.r < 0 && FlushAndGet(f).ret != EOF
    ensures FlushAndGet(f).ret >= 0 && [FlushAndGet(f).ret] + Unread(FlushAndGet(f).file) == Unread(f)
  {
    hide Output;
  }

  lemma WriteThroughFeeds()
    ensures Feeds(WriteThrough())
  {
    forall f: File | Shape(f) && f.r < 0 && FlushAndGet(f).ret != EOF
      ensures FlushAndGet(f).ret >= 0 && [FlushAndGet(f).ret] + Unread(FlushAndGet(f).file) == Unread(f)
    {
      GetFeedsOne(f);
    }
    hide FlushAndGet, Unread, Shape;
  }

  lemma WriteThroughDelivers()
    ensures Delivers(WriteThrough())
  {
  }

  // ---- The macros on the structure itself

  /** struct __sFILE. */
  class Stream {
    var p: int
    var r: int
    var w: int
    var lbf: bool
    var nbf: bool
    var rd: bool
    var wr: bool
    var lbfsize: int
    var buf: array<nat>
    var sink: seq<nat>
    var src: seq<nat>

    function Value(): File
      reads this, buf
    {
      File(p, r, w, lbf, nbf, rd, wr, lbfsize, buf[..], sink, src)
    }

    constructor (f: File)
      ensures Value() == f && fresh(buf)
    {
      p, r, w, lbf, nbf, rd, wr, lbfsize := f.p, f.r, f.w, f.lbf, f.nbf, f.rd, f.wr, f.lbfsize;
      sink, src := f.sink, f.src;
      buf := new nat[|f.buf|](i requires 0 <= i < |f.buf| => f.buf[i]);
      new;
      assert buf[..] == f.buf;
    }

    /** What the library leaves behind. */
    method Become(f: File)
      modifies this
      ensures Value() == f && fresh(buf)
    {
      p, r, w, lbf, nbf, rd, wr, lbfsize := f.p, f.r, f.w, f.lbf, f.nbf, f.rd, f.wr, f.lbfsize;
      sink, src := f.sink, f.src;
      buf := new nat[|f.buf|](i requires 0 <= i < |f.buf| => f.buf[i]);
      assert buf[..] == f.buf;
    }

    /** __sputc, the inline function. */
    method SputcInline(c: int, lib: Library) returns (ret: int)
      requires Good(Value())
      modifies this, buf
      ensures Value() == PutInline(old(Value()), c, lib).file
      ensures ret == PutInline(old(Value()), c, lib).ret
    {
      DirectExactly(Value(), c);
      w := w - 1;
      if w >= 0 || (w >= lbfsize && Byte(c) != NEWLINE) {
        buf[p] := Byte(c);
        p := p + 1;
        ret := Byte(c);
      } else {
        var reply := lib.swbuf(c, Value());
        Become(reply.file);
        ret := reply.ret;
      }
    }

    /** __sputc, the macro. */
    method SputcMacro(c: int, lib: Library) returns (ret: int)
      requires Good(Value())
      modifies this, buf
      ensures Value() == PutMacro(old(Value()), c, lib).file
      ensures ret == PutMacro(old(Value()), c, lib).ret
    {
      ghost var was := Value();
      w := w - 1;
      if w < 0 {
        if w >= lbfsize {
          buf[p] := Byte(c);
          assert buf[..] == Store(was.buf, was.p, Byte(c));
          if buf[p] != NEWLINE {
            ret := buf[p];
            p := p + 1;
          } else {
            var reply := lib.swbuf(NEWLINE, Value());
            Become(reply.file);
            ret := reply.ret;
          }
        } else {
          var reply := lib.swbuf(c, Value());
          Become(reply.file);
          ret := reply.ret;
        }
      } else {
        buf[p] := Byte(c);
        ret := buf[p];
        p := p + 1;
      }
    }

    /** __sgetc. */
    method Sgetc(lib: Library) returns (ret: int)
      requires Good(Value())
      modifies this
      ensures Value() == GetChar(old(Value()), lib).file
      ensures ret == GetChar(old(Value()), lib).ret
    {
      r := r - 1;
      if r < 0 {
        var reply := lib.srget(Value());
        Become(reply.file);
        ret := reply.ret;
      } else {
        ret := buf[p];
        p := p + 1;
      }
    }
  }
}
