/** The page-stride stack probes a signal handler runs on its alternate stack. */
module StackProbe {
  import opened Options
  import opened Words
  import opened AltStack

  const STRIDE: nat := 0x1000

  predicate Usable(r: Region, a: nat) {
    r.base + r.guard <= a < r.base + r.length
  }

  /** A store to the byte at `a` goes through. */
  predicate WritableByte(live: set<Region>, a: nat) {
    exists r <- live :: Usable(r, a)
  }

  /** The lowest `guard` bytes of a mapping are not accessible, the rest is, and nothing else is. */
  lemma ByteLaw(live: set<Region>, a: nat)
    ensures WritableByte(live, a) <==> exists r :: r in live && r.base + r.guard <= a < r.base + r.length
  {
    if WritableByte(live, a) {
      var r :| r in live && Usable(r, a);
    } else {
      assert forall r :: r in live ==> !Usable(r, a);
    }
  }

  /** A quadword store at `a` goes through. */
  predicate Writable(live: set<Region>, a: nat) {
    forall b | a <= b < a + 8 :: WritableByte(live, b)
  }

  /** The number of strides `probe_stack_chkstk(n)` takes: a do-while loop on a 64-bit counter. */
  function Strides(n: nat): (k: nat)
  {
    var pages := (n + 4095) % WORD / STRIDE;
    if pages == 0 then WORD else pages
  }

  /** Where stride `k` stores. */
  function StrideAddress(rsp: nat, k: nat): nat {
    (rsp - STRIDE * k) % WORD
  }

  predicate Completes(live: set<Region>, rsp: nat, n: nat) {
    forall k | 1 <= k <= Strides(n) :: Writable(live, StrideAddress(rsp, k))
  }

  class Cpu {
    const live: set<Region>
    var rsp: nat
    var stores: seq<nat>

    constructor (live: set<Region>, rsp: nat)
      ensures this.live == live && this.rsp == rsp && stores == []
    {
      this.live, this.rsp, stores := live, rsp, [];
    }

    /** `movq $0, (%rsp)`: traps when the quadword is not writable. */
    method StoreAtRsp() returns (ok: bool)
      modifies this`stores
      ensures ok <==> Writable(live, rsp)
      ensures ok <==> forall b | rsp <= b < rsp + 8 :: WritableByte(live, b)
      ensures stores == if ok then old(stores) + [rsp] else old(stores)
    {
      ok := Writable(live, rsp);
      if ok {
        stores := stores + [rsp];
      }
    }

    /** `probe_stack_chkstk`: the address of the store that trapped, if one did.  Either way the stores made are
      * exactly the first ones of the walk. */
    method ProbeStackChkstk(n: nat) returns (fault: Option<nat>)
      requires n < WORD && rsp < WORD
      modifies this
      ensures fault.None? <==> Completes(live, old(rsp), n)
      ensures fault.None? ==> rsp == old(rsp) && stores == old(stores) + Walk(old(rsp), Strides(n))
      ensures fault.Some? ==> FaultsAt(live, old(rsp), n, |stores| - |old(stores)| + 1, fault.value)
      ensures fault.Some? ==> stores == old(stores) + Walk(old(rsp), |stores| - |old(stores)|)
      ensures old(stores) <= stores && forall j | |old(stores)| <= j < |stores| ::
                stores[j] == (old(rsp) - 4096 * (j - |old(stores)| + 1)) % 0x1_0000_0000_0000_0000
      ensures fault.None? ==>
                |stores| - |old(stores)|
                == if 0 < n <= 0x1_0000_0000_0000_0000 - 4096 then (n + 4095) / 4096 else 0x1_0000_0000_0000_0000
    {
      hide StrideAddress, Strides, Writable, Walk;
      var amount := (n + 4095) % WORD / STRIDE * STRIDE;
      var pages := (n + 4095) % WORD / STRIDE;
      ghost var start := rsp;
      ghost var taken := 0;
      WalkStart(start, n);
      assert stores == old(stores) + Walk(start, 0);
      while true
        invariant rsp < WORD && rsp == StrideAddress(start, taken)
        invariant taken < Strides(n) && pages == Remaining(n, taken)
        invariant stores == old(stores) + Walk(start, taken)
        invariant forall k | 1 <= k <= taken :: Writable(live, StrideAddress(start, k))
        decreases Strides(n) - taken
      {
        ghost var before := stores;
        NextStride(start, taken, n);
        rsp := (rsp + WORD - STRIDE) % WORD;
        var ok := StoreAtRsp();
        if !ok {
          WalkLength(start, taken);
          WalkLaw(old(stores), start, taken);
          return Some(rsp);
        }
        NextWalk(old(stores), start, taken);
        pages := (pages + WORD - 1) % WORD;
        taken := taken + 1;
        if pages == 0 {
          break;
        }
      }
      Restored(start, n);
      StridesLaw(n);
      WalkLaw(old(stores), start, Strides(n));
      rsp := (rsp + amount) % WORD;
      fault := None;
    }

    /** `probe_stack_alloca`: one byte store in every page of the `n`-byte buffer, lowest address first. */
    method ProbeStackAlloca(buf: nat, n: nat) returns (fault: Option<nat>)
      requires buf + n <= rsp < WORD && n + STRIDE <= WORD
      modifies this`stores
      ensures fault.None? <==> AllocaCompletes(live, buf, n)
      ensures fault.None? ==> stores == old(stores) + Climb(buf, CeilPages(n))
      ensures fault.Some? ==> !WritableByte(live, fault.value) && buf <= fault.value < buf + n
      ensures fault.Some? ==> stores == old(stores) + Climb(buf, (fault.value - buf) / STRIDE)
      ensures old(stores) <= stores &&
              forall j | |old(stores)| <= j < |stores| :: stores[j] == buf + 4096 * (j - |old(stores)|)
      ensures fault.None? ==> |stores| - |old(stores)| == (n + 4095) / 4096
      ensures fault.Some? ==> fault.value == buf + 4096 * (|stores| - |old(stores)|)
    {
      hide WritableByte;
      var i := 0;
      ghost var taken := 0;
      assert stores == old(stores) + Climb(buf, 0);
      while i < n
        invariant i == STRIDE * taken < WORD && taken <= CeilPages(n)
        invariant stores == old(stores) + Climb(buf, taken)
        invariant forall k | 0 <= k < taken :: WritableByte(live, buf + STRIDE * k)
        decreases n - i
      {
        if !WritableByte(live, buf + i) {
          return Some(buf + i);
        }
        NextClimb(old(stores), buf, taken);
        stores := stores + [buf + i];
        i := (i + STRIDE) % WORD;
        taken := taken + 1;
      }
      fault := None;
    }

    /** `probe_stack` of the coreclr-pal-bug library: nothing at all for a zero size. */
    method ProbeStack(n: nat) returns (fault: Option<nat>)
      requires n < WORD && rsp < WORD
      modifies this
      ensures n == 0 ==> fault.None? && stores == old(stores)
      ensures n != 0 ==> (fault.None? <==> Completes(live, old(rsp), n))
      ensures n != 0 && fault.None? ==> stores == old(stores) + Walk(old(rsp), Strides(n))
      ensures n != 0 && fault.Some? ==> FaultsAt(live, old(rsp), n, |stores| - |old(stores)| + 1, fault.value)
      ensures fault.None? ==> rsp == old(rsp)
    {
      if n == 0 {
        return None;
      }
      fault := ProbeStackChkstk(n);
    }
  }

  /** The addresses of the first `k` stores. */
  function Walk(rsp: nat, k: nat): seq<nat> {
    seq(k, j requires 0 <= j => StrideAddress(rsp, j + 1))
  }

  /** Stride `k` is the first whose store traps, at `a`. */
  predicate FaultsAt(live: set<Region>, rsp: nat, n: nat, k: int, a: nat) {
    && 1 <= k <= Strides(n) && a == StrideAddress(rsp, k) && !Writable(live, a)
    && forall i | 1 <= i < k :: Writable(live, StrideAddress(rsp, i))
  }

  /** What the 64-bit loop counter holds after `taken` strides. */
  function Remaining(n: nat, taken: nat): nat
    requires taken < Strides(n)
  {
    (Strides(n) - taken) % WORD
  }

  lemma WalkStart(rsp: nat, n: nat)
    requires rsp < WORD
    ensures StrideAddress(rsp, 0) == rsp && Walk(rsp, 0) == []
    ensures 0 < Strides(n) && (n + 4095) % WORD / STRIDE == Remaining(n, 0)
  {
  }

  lemma WalkLength(rsp: nat, k: nat)
    ensures |Walk(rsp, k)| == k
  {
  }

  /** How many strides, and where they store, in numbers. */
  lemma StridesLaw(n: nat)
    requires n < WORD
    ensures Strides(n)
         == if 0 < n <= 0x1_0000_0000_0000_0000 - 4096 then (n + 4095) / 4096 else 0x1_0000_0000_0000_0000
  {
    if n + 4095 >= WORD {
      assert (n + 4095) % WORD == n + 4095 - WORD;
    }
  }

  lemma WalkLaw(before: seq<nat>, rsp: nat, k: nat)
    ensures |Walk(rsp, k)| == k
    ensures forall j | |before| <= j < |before| + k ::
              (before + Walk(rsp, k))[j] == (rsp - 4096 * (j - |before| + 1)) % 0x1_0000_0000_0000_0000
  {
  }

  lemma NextWalk(before: seq<nat>, rsp: nat, k: nat)
    ensures before + Walk(rsp, k) + [StrideAddress(rsp, k + 1)] == before + Walk(rsp, k + 1)
  {
  }

  lemma NextStride(rsp: nat, k: nat, n: nat)
    requires k < Strides(n)
    ensures (StrideAddress(rsp, k) + WORD - STRIDE) % WORD == StrideAddress(rsp, k + 1)
    ensures var left := (Remaining(n, k) + WORD - 1) % WORD;
            if k + 1 == Strides(n) then left == 0 else left == Remaining(n, k + 1) != 0
  {
    BackOne(rsp - STRIDE * k, STRIDE);
    assert rsp - STRIDE * k - STRIDE == rsp - STRIDE * (k + 1);
    BackOne(Strides(n) - k, 1);
    hide Strides;
  }

  lemma BackOne(a: int, step: nat)
    requires step <= WORD
    ensures (a % WORD + WORD - step) % WORD == (a - step) % WORD
  {
    assert a - step == WORD * (a / WORD - 1) + (a % WORD + WORD - step);
    SameResidue(a / WORD - 1, a % WORD + WORD - step);
  }

  lemma SameResidue(q: int, x: int)
    ensures (WORD * q + x) % WORD == x % WORD
  {
  }

  /** `add %1, %rsp` puts rsp back, even on the wrapped path of 2^64 strides. */
  lemma Restored(rsp: nat, n: nat)
    requires rsp < WORD
    ensures (StrideAddress(rsp, Strides(n)) + (n + 4095) % WORD / STRIDE * STRIDE) % WORD == rsp
  {
  }

  function CeilPages(n: nat): nat {
    (n + STRIDE - 1) / STRIDE
  }

  /** The addresses of the first `k` byte stores of the alloca probe. */
  function Climb(buf: nat, k: nat): seq<nat> {
    seq(k, j requires 0 <= j => buf + STRIDE * j)
  }

  predicate AllocaCompletes(live: set<Region>, buf: nat, n: nat) {
    forall k | 0 <= k < CeilPages(n) :: WritableByte(live, buf + STRIDE * k)
  }

  lemma NextClimb(before: seq<nat>, buf: nat, k: nat)
    ensures before + Climb(buf, k) + [buf + STRIDE * k] == before + Climb(buf, k + 1)
  {
  }

  // ------------------------------------------------------------------ guard pages

  /** `r` is a live stack mapping of a 64-bit address space and `rsp` points into it. */
  predicate OnStack(live: set<Region>, r: Region, rsp: nat) {
    && DisjointRegions(live) && r in live && r.base + r.length < WORD
    && r.base + r.guard <= rsp <= r.base + r.length
  }

  lemma StridesExact(n: nat)
    requires 0 < n && n + 4095 < WORD
    ensures Strides(n) == CeilPages(n) && STRIDE * (Strides(n) - 1) < n <= STRIDE * Strides(n)
  {
  }

  /** Bytes of a mapping below its guard line belong to no accessible memory. */
  lemma GuardByte(live: set<Region>, r: Region, a: nat)
    requires DisjointRegions(live) && r in live && r.base <= a < r.base + r.guard <= r.base + r.length
    ensures !WritableByte(live, a)
  {
    forall q <- live ensures !Usable(q, a) {
      if q != r {
        assert Apart(q, r.base, r.length);
      }
    }
  }

  /** A store at stride `k` is inside the usable stack exactly while `k` strides fit above its bottom. */
  lemma StrideInside(live: set<Region>, r: Region, rsp: nat, k: nat)
    requires OnStack(live, r, rsp) && 1 <= k && STRIDE * k <= rsp - (r.base + r.guard)
    ensures var a := StrideAddress(rsp, k);
            a == rsp - STRIDE * k && r.base + r.guard <= a && a + 8 <= r.base + r.length && Writable(live, a)
  {
    var a := StrideAddress(rsp, k);
    forall b | a <= b < a + 8 ensures WritableByte(live, b) {
      assert Usable(r, b);
    }
  }

  /** Guard-page soundness.  On a guarded stack the probe completes exactly when its whole strides fit above the
    * guard; otherwise the first store that is not inside the stack traps in the guard page, so nothing below the
    * guard is ever written. */
  lemma GuardSound(live: set<Region>, r: Region, rsp: nat, n: nat) returns (k: nat)
    requires OnStack(live, r, rsp) && r.guard == PAGE <= r.length
    requires 0 < n && n + 4095 < WORD
    ensures Completes(live, rsp, n) <==> 4096 * ((n + 4095) / 4096) <= rsp - (r.base + 4096)
    ensures k == if Completes(live, rsp, n) then Strides(n) + 1 else (rsp - (r.base + PAGE)) / STRIDE + 1
    ensures !Completes(live, rsp, n) ==>
              FaultsAt(live, rsp, n, k, rsp - STRIDE * k) && r.base <= rsp - STRIDE * k < r.base + PAGE
    ensures forall i | 1 <= i < k :: r.base + PAGE <= StrideAddress(rsp, i) <= rsp - STRIDE
  {
    var room := rsp - (r.base + PAGE);
    StridesExact(n);
    if STRIDE * Strides(n) <= room {
      forall i | 1 <= i <= Strides(n)
        ensures r.base + PAGE <= StrideAddress(rsp, i) <= rsp - STRIDE && Writable(live, StrideAddress(rsp, i))
      {
        StrideInside(live, r, rsp, i);
      }
      k := Strides(n) + 1;
    } else {
      k := room / STRIDE + 1;
      forall i | 1 <= i < k
        ensures r.base + PAGE <= StrideAddress(rsp, i) <= rsp - STRIDE && Writable(live, StrideAddress(rsp, i))
      {
        StrideInside(live, r, rsp, i);
      }
      FirstBad(live, r, rsp, k);
    }
  }

  lemma FirstBad(live: set<Region>, r: Region, rsp: nat, k: nat)
    requires OnStack(live, r, rsp) && r.guard == PAGE <= r.length && k == (rsp - (r.base + PAGE)) / STRIDE + 1
    ensures r.base <= rsp - STRIDE * k < r.base + PAGE
    ensures StrideAddress(rsp, k) == rsp - STRIDE * k && !Writable(live, rsp - STRIDE * k)
  {
    GuardByte(live, r, rsp - STRIDE * k);
  }

  /** Without a guard (`mprotect` failed) a probe that fits still completes inside its own mapping. */
  lemma FitsInside(live: set<Region>, r: Region, rsp: nat, n: nat)
    requires OnStack(live, r, rsp) && 0 < n && n + 4095 < WORD
    requires STRIDE * CeilPages(n) <= rsp - (r.base + r.guard)
    ensures Completes(live, rsp, n)
    ensures forall i | 1 <= i <= Strides(n) :: r.base + r.guard <= StrideAddress(rsp, i) <= rsp - STRIDE
  {
    StridesExact(n);
    forall i | 1 <= i <= Strides(n)
      ensures r.base + r.guard <= StrideAddress(rsp, i) <= rsp - STRIDE && Writable(live, StrideAddress(rsp, i))
    {
      StrideInside(live, r, rsp, i);
    }
  }

  /** The alloca probe also finds the guard, and exactly when its buffer crosses it; but it starts at the far end,
    * so what lies below the guard is written first. */
  lemma AllocaGuard(live: set<Region>, r: Region, buf: nat, n: nat)
    requires DisjointRegions(live) && r in live && r.guard == PAGE && 0 < n
    requires r.base + PAGE < buf + n <= r.base + r.length
    ensures AllocaCompletes(live, buf, n) <==> r.base + PAGE <= buf
  {
    if r.base + PAGE <= buf {
      forall k | 0 <= k < CeilPages(n) ensures WritableByte(live, buf + STRIDE * k) {
        assert Usable(r, buf + STRIDE * k);
      }
    } else {
      var k := if r.base <= buf then 0 else (r.base - buf + STRIDE - 1) / STRIDE;
      assert r.base <= buf + STRIDE * k < r.base + PAGE;
      assert k < CeilPages(n);
      GuardByte(live, r, buf + STRIDE * k);
    }
  }

  /** Starting from zero pages the loop would have to walk the whole address space: it completes only if every
    * stride of it is writable, so any guard page stops it. */
  lemma ZeroSizeProbe(live: set<Region>, rsp: nat, n: nat, r: Region)
    requires (n + 4095) % WORD / STRIDE == 0
    requires DisjointRegions(live) && r in live && r.guard == PAGE <= r.length && r.base + r.length < WORD
    requires rsp < WORD
    ensures !Completes(live, rsp, n)
  {
    var k := if rsp >= r.base + PAGE then (rsp - (r.base + PAGE)) / STRIDE + 1
             else (rsp + WORD - (r.base + PAGE)) / STRIDE + 1;
    var a := StrideAddress(rsp, k);
    assert 1 <= k <= Strides(n);
    assert r.base <= a < r.base + PAGE;
    GuardByte(live, r, a);
    assert !WritableByte(live, a);
  }

  // ------------------------------------------------------------------ handlers on the shim's stack

  /** On a guarded shim stack a handler that has used `u` bytes and then probes `n` more completes exactly when
    * the two fit into 1 MiB. */
  lemma HandlerOnShimStack(s: System, t: nat, r: Region, n: nat)
    requires Owned(s) && t in s.threads && Flagged(s.threads[t]) && s.threads[t].alive && s.threads[t].base.Some?
    requires s.threads[t].used.Some? && s.threads[t].used.value <= 0x10_0000
    requires r in s.live && r.owner == ByShim && r.tid == t && r.guard == PAGE && r.base + r.length < WORD
    requires 0 < n && n + 4095 < WORD
    ensures var th := s.threads[t];
            var rsp := th.kernel.sp + th.kernel.size - th.used.value;
            Completes(s.live, rsp, n) <==> th.used.value + 4096 * ((n + 4095) / 4096) <= 0x10_0000
  {
    var th := s.threads[t];
    assert CeilPages(n) == (n + 4095) / 4096;
    GuardBelow(s, t, r);
    var _ := GuardSound(s.live, r, r.base + PAGE + LARGE - th.used.value, n);
  }

  /** The shim's promise over a whole run.  Let a thread that has kept the usage rule make a call of the shim that gets
    * through with a guard page.  Then whatever it and every other thread do while it lives, a handler on it that has
    * used `u` bytes and probes `n` more completes exactly when the two fit into 1 MiB. */
  lemma ShimPromise(before: seq<Event>, t: nat, o: Outcome, after: seq<Event>, n: nat)
    requires LegalFor(INITIAL, before, t)
    requires var s := Run(INITIAL, before);
             && Possible(s, Ensure(t, o)) && Disciplined(s, Ensure(t, o))
             && !s.threads[t].installed && !(s.threads[t].kernel.Enabled? && s.threads[t].kernel.size >= 0x10_0000)
             && o.queryOk && o.mapped.Some? && o.protectOk && o.installOk && o.mapped.value + 0x10_1000 < WORD
    requires var s1 := Next(Run(INITIAL, before), Ensure(t, o)); Feasible(s1, after) && AliveThroughout(s1, after, t)
    requires var th := ThreadOf(Run(Next(Run(INITIAL, before), Ensure(t, o)), after), t);
             th.used.Some? && th.used.value <= 0x10_0000
    requires 0 < n && n + 4095 < WORD
    ensures var s2 := Run(Next(Run(INITIAL, before), Ensure(t, o)), after);
            var th := ThreadOf(s2, t);
            && th.kernel == Enabled(o.mapped.value + 0x1000, 0x10_0000)
            && (Completes(s2.live, th.kernel.sp + th.kernel.size - th.used.value, n)
                <==> th.used.value + 4096 * ((n + 4095) / 4096) <= 0x10_0000)
  {
    hide Completes, CeilPages, AltStack.Next, AltStack.Run, Feasible, LegalFor, Possible, Disciplined, Owned;
    var s := Run(INITIAL, before);
    var s1 := Next(s, Ensure(t, o));
    var s2 := Run(s1, after);
    var r := ShimRegion(t, o.mapped.value, o.protectOk);
    ReachableFlagged(before, t);
    FlagKeeps(s, Ensure(t, o));
    EnsureInstalls(s, t, o);
    OwnedKeeps(s, Ensure(t, o));
    RunOwned(s1, after);
    ShimStackStays(s1, after, r);
    FlaggedForever(s1, after, t);
    HandlerOnShimStack(s2, t, r, n);
  }

  /** A stack smaller than the probe cannot hold it: one of its stores lies in the page just below the stack, so
    * it either traps there or overwrites a neighbour.  Sixteen pages overflow CoreCLR's 16 KB and Go's 32 KB. */
  lemma SmallStackOverflows(live: set<Region>, sp: nat, size: nat, rsp: nat, n: nat)
    requires STRIDE <= sp <= rsp <= sp + size < WORD && 0 < n && n + 4095 < WORD
    requires size < 4096 * ((n + 4095) / 4096)
    ensures var k := (rsp - sp) / STRIDE + 1;
            && 1 <= k <= Strides(n) && sp - STRIDE <= StrideAddress(rsp, k) < sp
            && (Completes(live, rsp, n) ==> Writable(live, StrideAddress(rsp, k)))
  {
    StridesExact(n);
  }
}
