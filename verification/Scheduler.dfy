/**
  Placement: whether a worker can host an execution, given what is already
  reserved on it, and which worker is picked.
 */
module Scheduler {
  import opened Wrappers

  type WorkerId = nat

  datatype RuntimeKind = Docker | Podman | Apptainer

  datatype Requirement = Requirement(
    kind: RuntimeKind, os: Option<string>, arch: Option<string>, cpu: nat, memoryMib: nat, diskGib: nat,
    capabilities: set<string>, toolchains: map<string, string>)

  datatype WorkerState = Ready | Draining | Unreachable | Offline

  datatype Worker = Worker(
    os: string, arch: string, cpu: nat, memoryMib: nat, diskGib: nat, maxConcurrent: nat,
    runtimes: set<RuntimeKind>, capabilities: set<string>, toolchains: map<string, string>,
    state: WorkerState, proofComplete: bool, running: nat)

  datatype Reserved = Reserved(slots: nat, cpu: nat, memoryMib: nat, diskGib: nat)

  /** The resource checks of `validate_runtime`. */
  predicate ValidRuntime(req: Requirement)
  {
    req.cpu != 0 && req.memoryMib >= 256 && req.diskGib != 0
  }

  function SaturatingSub(a: nat, b: nat): nat
  {
    if a < b then 0 else a - b
  }

  function LowerChar(c: char): char
  {
    if 'A' <= c <= 'Z' then c + 32 as char else c
  }

  function Lower(s: string): string
  {
    seq(|s|, i requires 0 <= i < |s| => LowerChar(s[i]))
  }

  /** White space, by code point. */
  predicate IsBlank(c: char)
  {
    var n := c as int;
    || 9 <= n <= 13 || n == 32 || n == 0x85 || n == 0xA0 || n == 0x1680 || 0x2000 <= n <= 0x200A
    || n == 0x2028 || n == 0x2029 || n == 0x202F || n == 0x205F || n == 0x3000
  }

  function Trim(s: string): string
  {
    if s != [] && IsBlank(s[0]) then Trim(s[1..])
    else if s != [] && IsBlank(s[|s| - 1]) then Trim(s[..|s| - 1])
    else s
  }

  function CanonicalArch(arch: string): string
  {
    var lower := Lower(Trim(arch));
    if lower == "amd64" then "x86_64" else if lower == "arm64" then "aarch64" else lower
  }

  /** Everything but the quantities: readiness, platform, toolchains, runtime, capabilities. */
  predicate Compatible(w: Worker, req: Requirement)
  {
    && w.state.Ready? && w.proofComplete
    && (req.os.Some? ==> Lower(req.os.value) == Lower(w.os))
    && (req.arch.Some? ==> CanonicalArch(req.arch.value) == CanonicalArch(w.arch))
    && (forall name | name in req.toolchains :: name in w.toolchains && w.toolchains[name] == req.toolchains[name])
    && req.kind in w.runtimes
    && req.capabilities <= w.capabilities
  }

  predicate FitsWith(w: Worker, req: Requirement, used: Reserved)
  {
    && used.slots < w.maxConcurrent
    && Compatible(w, req)
    && SaturatingSub(w.cpu, used.cpu) >= req.cpu
    && SaturatingSub(w.memoryMib, used.memoryMib) >= req.memoryMib
    && SaturatingSub(w.diskGib, used.diskGib) >= req.diskGib
  }

  predicate Fits(w: Worker, req: Requirement)
  {
    FitsWith(w, req, Reserved(w.running, 0, 0, 0))
  }

  // ------------------------------------------------------------ what stands against a placement

  /** One thing that keeps a worker from hosting an execution. */
  datatype Obstacle =
    | NotReady
    | Unproven
    | Full
    | OtherOs
    | OtherArch
    | OtherToolchain(name: string)
    | NoRuntime
    | NoCapability(capability: string)
    | ShortOfCpu
    | ShortOfMemory
    | ShortOfDisk

  /** The same letter, in either case. */
  predicate SameLetter(c: char, d: char)
  {
    || c == d
    || ('A' <= c <= 'Z' && d as int == c as int + ('a' as int - 'A' as int))
    || ('A' <= d <= 'Z' && c as int == d as int + ('a' as int - 'A' as int))
  }

  predicate EqualIgnoringCase(a: string, b: string)
  {
    |a| == |b| && forall i | 0 <= i < |a| :: SameLetter(a[i], b[i])
  }

  /** Two spellings of one architecture, blanks around them aside. */
  predicate SameArch(a: string, b: string)
  {
    var s, t := Trim(a), Trim(b);
    || EqualIgnoringCase(s, t)
    || (SpelledAs(s, "amd64", "x86_64") && SpelledAs(t, "amd64", "x86_64"))
    || (SpelledAs(s, "arm64", "aarch64") && SpelledAs(t, "arm64", "aarch64"))
  }

  predicate SpelledAs(s: string, one: string, other: string)
  {
    EqualIgnoringCase(s, one) || EqualIgnoringCase(s, other)
  }

  predicate Prevents(o: Obstacle, w: Worker, req: Requirement, used: Reserved)
  {
    match o
    case NotReady => !w.state.Ready?
    case Unproven => !w.proofComplete
    case Full => used.slots >= w.maxConcurrent
    case OtherOs => req.os.Some? && !EqualIgnoringCase(req.os.value, w.os)
    case OtherArch => req.arch.Some? && !SameArch(req.arch.value, w.arch)
    case OtherToolchain(name) => name in req.toolchains && (name !in w.toolchains || w.toolchains[name] != req.toolchains[name])
    case NoRuntime => req.kind !in w.runtimes
    case NoCapability(capability) => capability in req.capabilities && capability !in w.capabilities
    case ShortOfCpu => req.cpu > 0 && used.cpu + req.cpu > w.cpu
    case ShortOfMemory => req.memoryMib > 0 && used.memoryMib + req.memoryMib > w.memoryMib
    case ShortOfDisk => req.diskGib > 0 && used.diskGib + req.diskGib > w.diskGib
  }

  ghost predicate Prevented(w: Worker, req: Requirement, used: Reserved)
  {
    exists o :: Prevents(o, w, req, used)
  }

  lemma LowerExactly(a: string, b: string)
    ensures Lower(a) == Lower(b) <==> EqualIgnoringCase(a, b)
  {
    if Lower(a) == Lower(b) {
      forall i | 0 <= i < |a|
        ensures SameLetter(a[i], b[i])
      {
        assert Lower(a)[i] == Lower(b)[i];
      }
    }
  }

  const WHITE_SPACE := {9, 10, 11, 12, 13, 32, 0x85, 0xA0, 0x1680, 0x2000, 0x2001, 0x2002, 0x2003, 0x2004, 0x2005, 0x2006,
                        0x2007, 0x2008, 0x2009, 0x200A, 0x2028, 0x2029, 0x202F, 0x205F, 0x3000}

  lemma BlankExactly(c: char)
    ensures IsBlank(c) <==> c as int in WHITE_SPACE
  {
  }

  /** What trimming leaves has no blank at either end, and only blanks were taken off. */
  lemma {:induction false} TrimExactly(s: string) returns (left: string, right: string)
    ensures s == left + Trim(s) + right
    ensures forall c | c in left || c in right :: c as int in WHITE_SPACE
    ensures Trim(s) != [] ==> Trim(s)[0] as int !in WHITE_SPACE && Trim(s)[|Trim(s)| - 1] as int !in WHITE_SPACE
    decreases |s|
  {
    left, right := [], [];
    if s != [] {
      BlankExactly(s[0]);
      BlankExactly(s[|s| - 1]);
    }
    hide IsBlank;
    if s != [] && IsBlank(s[0]) {
      left, right := TrimExactly(s[1..]);
      left := [s[0]] + left;
    } else if s != [] && IsBlank(s[|s| - 1]) {
      left, right := TrimExactly(s[..|s| - 1]);
      right := right + [s[|s| - 1]];
    }
  }

  lemma CanonicalExactly(a: string, b: string)
    ensures CanonicalArch(a) == CanonicalArch(b) <==> SameArch(a, b)
  {
    var s, t := Trim(a), Trim(b);
    LowerExactly(s, t);
    Spelling(s);
    Spelling(t);
    hide Lower, EqualIgnoringCase, Trim;
  }

  lemma Spelling(s: string)
    ensures forall one: string | one in ["amd64", "x86_64", "arm64", "aarch64"] :: Lower(s) == one <==> EqualIgnoringCase(s, one)
  {
    forall one: string | one in ["amd64", "x86_64", "arm64", "aarch64"]
      ensures Lower(s) == one <==> EqualIgnoringCase(s, one)
    {
      assert Lower(one) == one;
      LowerExactly(s, one);
    }
  }

  lemma UnfitIsPrevented(w: Worker, req: Requirement, used: Reserved)
    requires !FitsWith(w, req, used)
    ensures Prevented(w, req, used)
  {
    if req.os.Some? { LowerExactly(req.os.value, w.os); }
    if req.arch.Some? { CanonicalExactly(req.arch.value, w.arch); }
    hide Lower, CanonicalArch, EqualIgnoringCase, SameArch;
    var o :=
      if used.slots >= w.maxConcurrent then Full
      else if !w.state.Ready? then NotReady
      else if !w.proofComplete then Unproven
      else if req.kind !in w.runtimes then NoRuntime
      else if SaturatingSub(w.cpu, used.cpu) < req.cpu then ShortOfCpu
      else if SaturatingSub(w.memoryMib, used.memoryMib) < req.memoryMib then ShortOfMemory
      else if SaturatingSub(w.diskGib, used.diskGib) < req.diskGib then ShortOfDisk
      else if req.os.Some? && Lower(req.os.value) != Lower(w.os) then OtherOs
      else if req.arch.Some? && CanonicalArch(req.arch.value) != CanonicalArch(w.arch) then OtherArch
      else if !(req.capabilities <= w.capabilities) then
        var c :| c in req.capabilities && c !in w.capabilities; NoCapability(c)
      else
        var name :| name in req.toolchains && !(name in w.toolchains && w.toolchains[name] == req.toolchains[name]);
        OtherToolchain(name);
    assert Prevents(o, w, req, used);
  }

  /** A worker can host an execution exactly when nothing named stands against it. */
  lemma FitsExactly(w: Worker, req: Requirement, used: Reserved)
    ensures FitsWith(w, req, used) <==> !Prevented(w, req, used)
  {
    if !FitsWith(w, req, used) {
      UnfitIsPrevented(w, req, used);
    } else {
      if req.os.Some? { LowerExactly(req.os.value, w.os); }
      if req.arch.Some? { CanonicalExactly(req.arch.value, w.arch); }
    }
  }

  function AddRequest(used: Reserved, req: Requirement): Reserved
  {
    Reserved(used.slots + 1, used.cpu + req.cpu, used.memoryMib + req.memoryMib, used.diskGib + req.diskGib)
  }

  predicate Within(used: Reserved, w: Worker)
  {
    used.slots <= w.maxConcurrent && used.cpu <= w.cpu && used.memoryMib <= w.memoryMib && used.diskGib <= w.diskGib
  }

  /** Each quantity is either asked for or not already overcommitted. */
  predicate NotOvercommitted(w: Worker, req: Requirement, used: Reserved)
  {
    && (req.cpu != 0 || used.cpu <= w.cpu)
    && (req.memoryMib != 0 || used.memoryMib <= w.memoryMib)
    && (req.diskGib != 0 || used.diskGib <= w.diskGib)
  }

  /**
    A fitting request stays within the advertised limits exactly when each quantity
    is either asked for or not already overcommitted. The subtraction saturates, so
    a zero request passes on a worker whose limits shrank below its reservations;
    a validated runtime never asks for zero.
   */
  lemma FittingStaysWithin(w: Worker, req: Requirement, used: Reserved)
    requires FitsWith(w, req, used)
    ensures Within(AddRequest(used, req), w) <==> NotOvercommitted(w, req, used)
    ensures ValidRuntime(req) ==> NotOvercommitted(w, req, used)
  {
  }

  /** `select`: the index of the first least-loaded worker that fits. */
  function Select(workers: seq<Worker>, req: Requirement): (r: Option<nat>)
    ensures r.None? <==> forall i | 0 <= i < |workers| :: !Fits(workers[i], req)
    ensures r.Some? ==>
      && r.value < |workers| && Fits(workers[r.value], req)
      && (forall i | 0 <= i < |workers| && Fits(workers[i], req) ::
            workers[r.value].running < workers[i].running
            || (workers[r.value].running == workers[i].running && r.value <= i))
  {
    if workers == [] then None
    else
      var n := |workers| - 1;
      var best := Select(workers[..n], req);
      if !Fits(workers[n], req) then best
      else if best.Some? && workers[best.value].running <= workers[n].running then best
      else Some(n)
  }

  /** The worker picked is hindered by nothing, and a less loaded or earlier one by something. */
  lemma SelectExactly(workers: seq<Worker>, req: Requirement, i: nat)
    requires i < |workers|
    ensures var r := Select(workers, req);
      && (r == Some(i) ==> !Prevented(workers[i], req, Reserved(workers[i].running, 0, 0, 0)))
      && (r.None? || (r != Some(i) && workers[i].running < workers[r.value].running) ==>
            Prevented(workers[i], req, Reserved(workers[i].running, 0, 0, 0)))
      && (r.Some? && i < r.value && workers[i].running <= workers[r.value].running ==>
            Prevented(workers[i], req, Reserved(workers[i].running, 0, 0, 0)))
  {
    FitsExactly(workers[i], req, Reserved(workers[i].running, 0, 0, 0));
  }
}
