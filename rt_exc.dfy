/** The runtime's exception mechanism (runtime/rt_exc.c, runtime/rt_exc.h): a stack of try
    contexts chained through their `prev` fields, and one global record of the current exception.

    A try context is identified by a number (its address).  The chain is modelled as it is stored:
    the top context and the `prev` link of every context ever pushed.  The non-local jump of
    `longjmp` and the process exit become a `Transfer` value the caller receives. */
module RtExc {
  import opened Wrappers
  import Decimal

  /** rt_exc_type_t. */
  datatype ExcType = Exception | ZeroDivisionError | IndexError | KeyError | TypeError | ValueError

  /** rt_exc_name. */
  function ExcName(t: ExcType): (s: string)
    ensures s != [] && ' ' !in s
  {
    match t
    case Exception => "Exception"
    case ZeroDivisionError => "ZeroDivisionError"
    case IndexError => "IndexError"
    case KeyError => "KeyError"
    case TypeError => "TypeError"
    case ValueError => "ValueError"
  }

  /** Every kind has its own name, so the name printed for an unhandled exception identifies it. */
  lemma ExcNameInjective(a: ExcType, b: ExcType)
    ensures ExcName(a) == ExcName(b) <==> a == b
  {
  }

  /** rt_exc_t: message and file are C pointers that may be NULL. */
  datatype ExcRecord = ExcRecord(kind: ExcType, message: Option<string>, file: Option<string>, line: int)

  /** The record's initial and cleared value. */
  const Cleared := ExcRecord(Exception, None, None, 0)

  /** The try stack as stored: the top context, and the `prev` link written when each context
      was pushed. */
  datatype TryChain = TryChain(top: Option<nat>, prev: map<nat, Option<nat>>)

  /** Every link leads to a context that was itself pushed. */
  ghost predicate ChainValid(s: TryChain) {
    && (s.top.Some? ==> s.top.value in s.prev)
    && forall c | c in s.prev && s.prev[c].Some? :: s.prev[c].value in s.prev
  }

  /** rt_try_push on a non-NULL context. */
  function PushCtx(s: TryChain, ctx: nat): (r: TryChain)
    requires ChainValid(s)
    ensures ChainValid(r) && r.top == Some(ctx) && r.prev[ctx] == s.top
    ensures forall c | c in s.prev && c != ctx :: c in r.prev && r.prev[c] == s.prev[c]
  {
    TryChain(Some(ctx), s.prev[ctx := s.top])
  }

  /** rt_try_pop on a non-NULL context: `None` stands for the abort on a mismatched context. */
  function PopCtx(s: TryChain, ctx: nat): (r: Option<TryChain>)
    requires ChainValid(s)
    ensures r.Some? <==> s.top == Some(ctx)
    ensures r.Some? ==> ChainValid(r.value) && r.value.prev == s.prev && r.value.top == s.prev[ctx]
  {
    if s.top == Some(ctx) then Some(TryChain(s.prev[ctx], s.prev)) else None
  }

  /** A pop of the context just pushed restores the previous top. */
  lemma PushPop(s: TryChain, ctx: nat)
    requires ChainValid(s)
    ensures ChainValid(PushCtx(s, ctx))
    ensures PopCtx(PushCtx(s, ctx), ctx) == Some(TryChain(s.top, s.prev[ctx := s.top]))
  {
  }

  /** Pushing the distinct contexts `cs` in order; the top after each push. */
  function PushAll(s: TryChain, cs: seq<nat>): (r: TryChain)
    requires ChainValid(s)
    ensures ChainValid(r)
    ensures cs != [] ==> ChainValid(r) && r.top == Some(cs[|cs| - 1])
    ensures cs == [] ==> r == s
  {
    if cs == [] then s else PushCtx(PushAll(s, cs[..|cs| - 1]), cs[|cs| - 1])
  }

  /** Popping the contexts `cs` from the last to the first; `None` when one of them is not the
      top at its turn. */
  function PopAll(s: TryChain, cs: seq<nat>): (r: Option<TryChain>)
    requires ChainValid(s)
    decreases |cs|
  {
    if cs == [] then Some(s)
    else
      match PopCtx(s, cs[|cs| - 1])
      case None => None
      case Some(s') => PopAll(s', cs[..|cs| - 1])
  }

  /** Properly nested try blocks with distinct contexts unwind back to the top they started from,
      without an abort. */
  lemma {:induction false} NestedTryRestores(s: TryChain, cs: seq<nat>)
    requires ChainValid(s)
    requires forall i, j | 0 <= i < j < |cs| :: cs[i] != cs[j]
    ensures var r := PopAll(PushAll(s, cs), cs);
            r.Some? && r.value.top == s.top
  {
    if cs != [] {
      var init, c := cs[..|cs| - 1], cs[|cs| - 1];
      var mid := PushAll(s, init);
      assert PushAll(s, cs) == PushCtx(mid, c);
      var popped := TryChain(mid.top, mid.prev[c := mid.top]);
      assert PopCtx(PushCtx(mid, c), c) == Some(popped);
      assert PopAll(PushAll(s, cs), cs) == PopAll(popped, init);
      assert c !in init by {
        forall i | 0 <= i < |init| ensures init[i] != c { assert init[i] == cs[i]; }
      }
      PopAllFrame(mid, popped.prev, init, c);
      NestedTryRestores(s, init);
    }
  }

  /** Two chains that agree on the top and on every link other than `c` unwind `cs` alike when
      `c` is not among `cs`. */
  lemma {:induction false} PopAllFrame(s: TryChain, p': map<nat, Option<nat>>, cs: seq<nat>, c: nat)
    requires ChainValid(s) && ChainValid(TryChain(s.top, p'))
    requires c !in cs
    requires forall k | k in s.prev && k != c :: k in p' && p'[k] == s.prev[k]
    requires forall k | k in p' && k != c :: k in s.prev
    ensures var a, b := PopAll(s, cs), PopAll(TryChain(s.top, p'), cs);
            a.Some? == b.Some? && (a.Some? ==> a.value.top == b.value.top)
    decreases |cs|
  {
    if cs != [] {
      var x := cs[|cs| - 1];
      var t := TryChain(s.top, p');
      assert x != c by { assert x in cs; }
      if s.top == Some(x) {
        var s1, t1 := TryChain(s.prev[x], s.prev), TryChain(p'[x], p');
        assert s1.top == t1.top;
        var init := cs[..|cs| - 1];
        assert c !in init by {
          forall i | 0 <= i < |init| ensures init[i] != c { assert init[i] == cs[i]; }
        }
        PopAllFrame(s1, p', init, c);
      }
    }
  }

  /** Re-pushing a context that is already on the stack overwrites its `prev` link, so the
      nesting no longer unwinds: pushing 7 twice and popping it twice leaves 7 on top. */
  lemma RepushedContextCycles()
    ensures var s := PushAll(TryChain(None, map[]), [7, 7]);
            PopAll(s, [7, 7]) == Some(TryChain(Some(7), map[7 := Some(7)]))
  {
    var s0 := TryChain(None, map[]);
    var s1 := PushCtx(s0, 7);
    assert PushAll(s0, [7]) == s1 by { assert [7][..0] == []; }
    assert [7, 7][..1] == [7];
    var s2 := PushCtx(s1, 7);
    assert s2 == TryChain(Some(7), map[7 := Some(7)]);
    assert PopAll(s2, [7]) == Some(s2) by { assert [7][..0] == []; }
  }

  /** Where control goes after a raise: the `setjmp` of the top context, or the unhandled report
      on standard error followed by exit status 1. */
  datatype Transfer = JumpTo(ctx: nat) | Unhandled(report: string, status: int)

  /** rt__print_unhandled's text: "<name>: <message>" and " (<file>:<line>)" when a file is set. */
  function Report(e: ExcRecord): (s: string)
    ensures ExcName(e.kind) + ": " <= s
  {
    var msg := if e.message.Some? then e.message.value else "";
    ExcName(e.kind) + ": " + msg
    + (if e.file.Some? then " (" + e.file.value + ":" + Decimal.IntToString(e.line) + ")" else "")
    + "\n"
  }

  /** The control transfer for the current exception. */
  function TransferOf(chain: TryChain, e: ExcRecord): (t: Transfer)
    ensures t.JumpTo? <==> chain.top.Some?
    ensures t.JumpTo? ==> t.ctx == chain.top.value
    ensures t.Unhandled? ==> t.status == 1 && ExcName(e.kind) + ": " <= t.report
  {
    if chain.top.Some? then JumpTo(chain.top.value) else Unhandled(Report(e), 1)
  }

  /** The runtime's exception globals: g_try_top with the contexts' links, and g_exc. */
  class ExcState {
    var chain: TryChain
    var exc: ExcRecord

    ghost predicate Valid()
      reads this
    {
      ChainValid(chain)
    }

    /** The static initial values: no handler, a cleared record. */
    constructor()
      ensures Valid() && chain == TryChain(None, map[]) && exc == Cleared
    {
      chain := TryChain(None, map[]);
      exc := Cleared;
    }

    /** rt_try_push: a NULL context is ignored. */
    method TryPush(ctx: Option<nat>)
      requires Valid()
      modifies this
      ensures Valid() && exc == old(exc)
      ensures chain == if ctx.Some? then PushCtx(old(chain), ctx.value) else old(chain)
    {
      if ctx.Some? {
        chain := PushCtx(chain, ctx.value);
      }
    }

    /** rt_try_pop: a NULL context is ignored; a context that is not the top aborts the process,
        reported as `aborted` with the state unchanged. */
    method TryPop(ctx: Option<nat>) returns (aborted: bool)
      requires Valid()
      modifies this
      ensures exc == old(exc)
      ensures aborted <==> ctx.Some? && old(chain).top != Some(ctx.value)
      ensures !aborted && ctx.Some? ==> chain == PopCtx(old(chain), ctx.value).value
      ensures aborted || ctx.None? ==> chain == old(chain)
    {
      aborted := false;
      if ctx.Some? {
        if chain.top == Some(ctx.value) {
          chain := TryChain(chain.prev[ctx.value], chain.prev);
        } else {
          aborted := true;
        }
      }
    }

    /** rt_raise: the record is overwritten, then control goes to the top handler, which stays
        on the stack until the handler pops it; with no handler the report is printed. */
    method Raise(t: ExcType, message: Option<string>, file: Option<string>, line: int)
      returns (tr: Transfer)
      requires Valid()
      modifies this
      ensures Valid() && chain == old(chain)
      ensures exc == ExcRecord(t, message, file, line)
      ensures tr == TransferOf(chain, exc)
    {
      exc := ExcRecord(t, message, file, line);
      if chain.top.Some? {
        tr := JumpTo(chain.top.value);
      } else {
        tr := Unhandled(Report(exc), 1);
      }
    }

    /** rt_reraise: the current exception, unchanged, goes to the top handler. */
    method Reraise() returns (tr: Transfer)
      requires Valid()
      ensures tr == TransferOf(chain, exc)
    {
      if chain.top.Some? {
        tr := JumpTo(chain.top.value);
      } else {
        tr := Unhandled(Report(exc), 1);
      }
    }

    /** rt_exc_current. */
    function Current(): (r: ExcRecord)
      reads this
      ensures r == exc
    {
      exc
    }

    /** rt_exc_clear. */
    method Clear()
      modifies this
      ensures chain == old(chain) && exc == Cleared
    {
      exc := Cleared;
    }

    /** rt_exc_is. */
    function Is(t: ExcType): (r: bool)
      reads this
    {
      exc.kind == t
    }
  }
}
