/**
  Which execution owns a branch of a repository: the names of the branch locks, and the
  creators that scan the owner records and write their own under such a lock.
 */
module Branches {
  import opened Strings
  import opened Wrappers

  type Byte = b: int | 0 <= b < 256

  // ------------------------------------------------------------------ repository names

  predicate IsComponentChar(c: char)
  {
    IsLower(c) || IsUpper(c) || IsDigit(c) || c == '-' || c == '_' || c == '.'
  }

  predicate HasDoubleUnderscore(s: string)
  {
    exists i | 0 <= i < |s| - 1 :: s[i] == '_' && s[i + 1] == '_'
  }

  predicate IsSafeComponent(s: string)
  {
    && s != "" && s != "." && s != ".."
    && !HasDoubleUnderscore(s)
    && forall c | c in s :: IsComponentChar(c)
  }

  /** `canonical_repository`: an owner and a name. */
  function Canonical(repo: string): (r: Option<(string, string)>)
  {
    var parts := Split(repo, '/');
    if && |parts| == 2
       && IsSafeComponent(parts[0]) && parts[0][|parts[0]| - 1] != '_'
       && IsSafeComponent(parts[1]) && parts[1][0] != '_'
    then Some((parts[0], parts[1])) else None
  }

  /** A path component of ASCII letters, digits, `-`, `_` and `.`, not `.` or `..`, without two underscores in a row. */
  predicate Plain(s: string)
  {
    && s !in {"", ".", ".."}
    && (forall c | c in s :: 48 <= c as int <= 57 || 65 <= c as int <= 90 || 97 <= c as int <= 122 || c in "-_.")
    && forall i | 0 < i < |s| :: s[i - 1] != '_' || s[i] != '_'
  }

  /** Exactly the repositories that are two plain components whose underscores do not meet. */
  lemma CanonicalExactly(repo: string, owner: string, name: string)
    ensures Canonical(repo) == Some((owner, name)) <==>
      && repo == owner + "/" + name && Plain(owner) && Plain(name)
      && owner[|owner| - 1] != '_' && name[0] != '_'
  {
    PlainExactly(owner);
    PlainExactly(name);
    SplitJoins(repo, '/');
    if repo == owner + "/" + name && IsSafeComponent(owner) && IsSafeComponent(name) {
      SplitsAtFirst(owner, '/', name);
      NoSeparatorNoSplit(name, '/');
    }
  }

  lemma PlainExactly(s: string)
    ensures IsSafeComponent(s) <==> Plain(s)
  {
    assert HasDoubleUnderscore(s) <==> exists i | 0 < i < |s| :: s[i - 1] == '_' && s[i] == '_' by {
      forall i | 0 < i < |s| && s[i - 1] == '_' && s[i] == '_'
        ensures HasDoubleUnderscore(s)
      {
        assert s[i - 1] == '_' && s[i - 1 + 1] == '_';
      }
    }
  }

  function NormalizedName(repo: string): (r: Option<string>)
  {
    var (owner, name) :- Canonical(repo);
    Some(owner + "__" + name)
  }

  /** The double underscore can be found again. */
  lemma UniquelyDecodable(o1: string, n1: string, o2: string, n2: string)
    requires !HasDoubleUnderscore(o1) && !HasDoubleUnderscore(o2)
    requires o1 != "" && o1[|o1| - 1] != '_' && o2 != "" && o2[|o2| - 1] != '_'
    requires o1 + "__" + n1 == o2 + "__" + n2
    ensures o1 == o2 && n1 == n2
  {
    SeparatorNotEarlier(o1, n1, o2, n2);
    SeparatorNotEarlier(o2, n2, o1, n1);
    var s := o1 + "__" + n1;
    assert s[..|o1|] == o1 && s[..|o2|] == o2;
    assert s[|o1| + 2..] == n1 && s[|o2| + 2..] == n2;
  }

  lemma SeparatorNotEarlier(o1: string, n1: string, o2: string, n2: string)
    requires !HasDoubleUnderscore(o2) && o2 != "" && o2[|o2| - 1] != '_'
    requires o1 + "__" + n1 == o2 + "__" + n2
    ensures |o2| <= |o1|
  {
    var s := o1 + "__" + n1;
    assert s[|o1|] == '_' && s[|o1| + 1] == '_';
    assert forall i | 0 <= i < |o2| :: s[i] == o2[i];
  }

  /** Different repositories have different normalized names. */
  lemma NormalizedInjective(r1: string, r2: string)
    requires NormalizedName(r1).Some? && NormalizedName(r1) == NormalizedName(r2)
    ensures r1 == r2
  {
    var (o1, n1) := Canonical(r1).value;
    var (o2, n2) := Canonical(r2).value;
    UniquelyDecodable(o1, n1, o2, n2);
    SplitJoins(r1, '/');
    SplitJoins(r2, '/');
  }

  // -------------------------------------------------------------------- encoded branches

  function HexBytes(value: seq<Byte>): (s: string)
    ensures HexDigits(s) && |s| == 2 * |value|
  {
    if value == [] then ""
    else
      var n := |value| - 1;
      HexBytes(value[..n]) + [DigitChar(value[n] / 16), DigitChar(value[n] % 16)]
  }

  /** Every byte can be read off its two digits. */
  lemma {:induction false} HexBytesRead(value: seq<Byte>, i: nat)
    requires i < |value|
    ensures 16 * DigitValue(HexBytes(value)[2 * i]) + DigitValue(HexBytes(value)[2 * i + 1]) == value[i]
  {
    if i < |value| - 1 {
      HexBytesRead(value[..|value| - 1], i);
    }
  }

  lemma HexBytesInjective(a: seq<Byte>, b: seq<Byte>)
    requires HexBytes(a) == HexBytes(b)
    ensures a == b
  {
    forall i | 0 <= i < |a|
      ensures a[i] == b[i]
    {
      HexBytesRead(a, i);
      HexBytesRead(b, i);
    }
  }

  /** `hex_component`: two digits pushed for each byte. */
  method HexComponent(value: seq<Byte>) returns (encoded: string)
    ensures encoded == HexBytes(value)
  {
    encoded := "";
    for i := 0 to |value|
      invariant encoded == HexBytes(value[..i])
    {
      assert value[..i + 1][..i] == value[..i];
      encoded := encoded + [DigitChar(value[i] / 16)];
      encoded := encoded + [DigitChar(value[i] % 16)];
    }
    assert value[..|value|] == value;
  }

  // ------------------------------------------------------------------------- lock names

  /** The file that is locked for a branch of a repository. */
  function LockName(normalized: string, branch: seq<Byte>): string
  {
    normalized + "." + ("branch-" + HexBytes(branch)) + ".lock"
  }

  /** Locks are shared by equal repositories and branches, and by no others. */
  lemma LockNamesInjective(r1: string, b1: seq<Byte>, r2: string, b2: seq<Byte>)
    requires NormalizedName(r1).Some? && NormalizedName(r2).Some?
    ensures LockName(NormalizedName(r1).value, b1) == LockName(NormalizedName(r2).value, b2) <==> r1 == r2 && b1 == b2
  {
    var n1, n2 := NormalizedName(r1).value, NormalizedName(r2).value;
    if LockName(n1, b1) == LockName(n2, b2) {
      hide NormalizedName, Canonical, HexBytes;
      LockNameSplits(n1, b1);
      LockNameSplits(n2, b2);
      assert HexBytes(b1) == ("branch-" + HexBytes(b1))[7..];
      assert HexBytes(b2) == ("branch-" + HexBytes(b2))[7..];
      HexBytesInjective(b1, b2);
      NormalizedInjective(r1, r2);
    }
  }

  lemma LockNameSplits(normalized: string, branch: seq<Byte>)
    ensures StripSuffix(LockName(normalized, branch), ".lock").Some?
    ensures RSplit(StripSuffix(LockName(normalized, branch), ".lock").value)
         == Some((normalized, "branch-" + HexBytes(branch)))
  {
    hide HexBytes, RSplit;
    var right := "branch-" + HexBytes(branch);
    assert '.' !in "branch-";
    assert '.' !in right;
    var stem := normalized + "." + right;
    assert LockName(normalized, branch)[|stem|..] == ".lock";
    SplitsAtLastDot(normalized, right);
  }

  // -------------------------------------------------------------------------- ownership

  type ExecutionId = nat
  type CreatorId = nat

  datatype Claim = Claim(repo: string, branch: seq<Byte>)

  /**
    A creator that holds the lock of its claim: scanning the executions, having found no
    owner, having found the repository root empty, or done.
   */
  datatype Creator =
    | Scanning(execution: ExecutionId, claim: Claim, todo: set<ExecutionId>)
    | Cleared(execution: ExecutionId, claim: Claim)
    | Cloning(execution: ExecutionId, claim: Claim)
    | Written(execution: ExecutionId, claim: Claim)

  datatype Waiter = Waiter(execution: ExecutionId, claim: Claim)

  type Owners = map<ExecutionId, Claim>
  type Locks = map<string, CreatorId>
  type Creators = map<CreatorId, Creator>

  predicate IsValid(claim: Claim)
  {
    NormalizedName(claim.repo).Some?
  }

  function LockOf(claim: Claim): string
    requires IsValid(claim)
  {
    LockName(NormalizedName(claim.repo).value, claim.branch)
  }

  /** At most one execution repository has an owner record for a branch of a repository. */
  predicate AtMostOne(owners: Owners)
  {
    forall d, e | d in owners && e in owners && owners[d] == owners[e] :: d == e
  }

  /** Creators hold the locks of their claims, and nobody else holds any. */
  predicate Exclusive(locks: Locks, creators: Creators)
  {
    && (forall c | c in creators ::
          var claim := creators[c].claim;
          IsValid(claim) && LockOf(claim) in locks && locks[LockOf(claim)] == c)
    && (forall n | n in locks ::
          locks[n] in creators && IsValid(creators[locks[n]].claim) && LockOf(creators[locks[n]].claim) == n)
  }

  /** Owners of a claim that is being scanned are still to be visited; of a cleared one there are none. */
  predicate Scanned(owners: Owners, creator: Creator)
  {
    match creator
    case Scanning(_, claim, todo) => forall e | e in owners && owners[e] == claim :: e in todo
    case Cleared(_, claim) => forall e | e in owners :: owners[e] != claim
    case Cloning(_, claim) => forall e | e in owners :: owners[e] != claim
    case Written(_, _) => true
  }

  predicate AllScanned(owners: Owners, creators: Creators)
  {
    forall c | c in creators :: Scanned(owners, creators[c])
  }

  /** Two creators never work on the same claim, and a lock is only ever held for that claim. */
  lemma OneCreatorPerClaim(locks: Locks, creators: Creators, c: CreatorId, claim: Claim)
    requires Exclusive(locks, creators) && IsValid(claim)
    ensures forall d | c in creators && d in creators && creators[c].claim == creators[d].claim :: c == d
    ensures LockOf(claim) in locks ==> locks[LockOf(claim)] in creators && creators[locks[LockOf(claim)]].claim == claim
    ensures LockOf(claim) !in locks ==> forall d | d in creators :: creators[d].claim != claim
  {
    if LockOf(claim) in locks {
      var held := creators[locks[LockOf(claim)]].claim;
      LockNamesInjective(claim.repo, claim.branch, held.repo, held.branch);
    }
  }

  lemma RecordAdded(owners: Owners, creators: Creators, c: CreatorId)
    requires AtMostOne(owners) && AllScanned(owners, creators) && c in creators && creators[c].Cloning?
    requires forall d | d in creators && creators[d].claim == creators[c].claim :: c == d
    ensures var now := owners[creators[c].execution := creators[c].claim];
      AtMostOne(now) && AllScanned(now, creators[c := Written(creators[c].execution, creators[c].claim)])
  {
    var me := creators[c];
    assert Scanned(owners, me);
    forall d | d in creators && d != c
      ensures Scanned(owners[me.execution := me.claim], creators[d])
    {
      assert Scanned(owners, creators[d]);
    }
  }

  lemma RecordRemoved(owners: Owners, creators: Creators, e: ExecutionId)
    requires AtMostOne(owners) && AllScanned(owners, creators)
    ensures AtMostOne(owners - {e}) && AllScanned(owners - {e}, creators)
  {
    forall c | c in creators
      ensures Scanned(owners - {e}, creators[c])
    {
      assert Scanned(owners, creators[c]);
    }
  }

  lemma LockReleased(locks: Locks, creators: Creators, c: CreatorId)
    requires Exclusive(locks, creators) && c in creators
    ensures Exclusive(locks - {LockOf(creators[c].claim)}, creators - {c})
  {
    hide LockOf, IsValid;
  }

  lemma LockTaken(locks: Locks, creators: Creators, c: CreatorId, creator: Creator)
    requires Exclusive(locks, creators) && c !in creators && IsValid(creator.claim) && LockOf(creator.claim) !in locks
    ensures Exclusive(locks[LockOf(creator.claim) := c], creators[c := creator])
  {
    hide LockOf, IsValid;
  }

  lemma LockKept(locks: Locks, creators: Creators, c: CreatorId, creator: Creator)
    requires Exclusive(locks, creators) && c in creators && creators[c].claim == creator.claim
    ensures Exclusive(locks, creators[c := creator])
  {
    hide LockOf, IsValid;
  }

  datatype CreateError = InvalidRepository | Locked(owner: ExecutionId) | NotEmpty

  class Worktrees {
    var owners: Owners
    var locks: Locks
    var creators: Creators
    var waiting: map<CreatorId, Waiter>

    ghost predicate Inv()
      reads this
    {
      && AtMostOne(owners) && Exclusive(locks, creators) && AllScanned(owners, creators)
      && (forall c | c in waiting :: c !in creators && IsValid(waiting[c].claim))
    }

    constructor ()
      ensures Inv() && owners == map[] && creators == map[] && waiting == map[]
    {
      owners, locks, creators, waiting := map[], map[], map[], map[];
    }

    /** A call for a valid repository starts to wait for the branch lock. */
    method Arrive(c: CreatorId, execution: ExecutionId, claim: Claim) returns (r: Result<(), CreateError>)
      requires Inv() && c !in creators && c !in waiting
      modifies `waiting
      ensures Inv()
      ensures r.Success? <==> IsValid(claim)
      ensures waiting == if r.Failure? then old(waiting) else old(waiting)[c := Waiter(execution, claim)]
    {
      hide AtMostOne, Exclusive, AllScanned, IsValid;
      if !IsValid(claim) { return Failure(InvalidRepository); }
      waiting := waiting[c := Waiter(execution, claim)];
      return Success(());
    }

    /**
      The lock is granted exactly when no creator has the claim; until then the call waits.
      With the lock it lists the executions to look at.
     */
    method Lock(c: CreatorId) returns (granted: bool)
      requires Inv() && c in waiting
      modifies `locks, `creators, `waiting
      ensures Inv()
      ensures granted <==> forall d | d in old(creators) :: old(creators)[d].claim != old(waiting)[c].claim
      ensures !granted ==> locks == old(locks) && creators == old(creators) && waiting == old(waiting)
      ensures granted ==>
        && creators == old(creators)[c := Scanning(old(waiting)[c].execution, old(waiting)[c].claim, owners.Keys)]
        && waiting == old(waiting) - {c}
    {
      hide AtMostOne, Exclusive, LockOf, IsValid;
      var claim := waiting[c].claim;
      OneCreatorPerClaim(locks, creators, c, claim);
      if LockOf(claim) in locks { return false; }
      var me := Scanning(waiting[c].execution, claim, owners.Keys);
      LockTaken(locks, creators, c, me);
      locks, creators, waiting := locks[LockOf(claim) := c], creators[c := me], waiting - {c};
      return true;
    }

    /** Release the lock: on return, or because the process ended. */
    method Leave(c: CreatorId)
      requires Inv() && c in creators
      modifies `locks, `creators
      ensures Inv() && creators == old(creators) - {c}
    {
      hide AtMostOne, Exclusive, LockOf;
      LockReleased(locks, creators, c);
      assert IsValid(creators[c].claim) by { HasLock(c); }
      locks := locks - {LockOf(creators[c].claim)};
      creators := creators - {c};
    }

    lemma HasLock(c: CreatorId)
      requires Exclusive(locks, creators) && c in creators
      ensures IsValid(creators[c].claim)
    {
    }

    /** Look at the owner record of one execution. */
    method Visit(c: CreatorId, e: ExecutionId) returns (r: Result<(), CreateError>)
      requires Inv() && c in creators && creators[c].Scanning? && e in creators[c].todo
      modifies `locks, `creators
      ensures Inv()
      ensures r.Failure? <==> e in owners && owners[e] == old(creators)[c].claim
      ensures creators == if r.Failure? then old(creators) - {c}
                          else old(creators)[c := old(creators)[c].(todo := old(creators)[c].todo - {e})]
    {
      hide AtMostOne, Exclusive;
      var me := creators[c];
      if e in owners && owners[e] == me.claim {
        Leave(c);
        return Failure(Locked(e));
      }
      LockKept(locks, creators, c, me.(todo := me.todo - {e}));
      assert Scanned(owners, me);
      creators := creators[c := me.(todo := me.todo - {e})];
      return Success(());
    }

    method Clear(c: CreatorId)
      requires Inv() && c in creators && creators[c].Scanning? && creators[c].todo == {}
      modifies `creators
      ensures Inv() && creators == old(creators)[c := Cleared(old(creators)[c].execution, old(creators)[c].claim)]
    {
      hide AtMostOne, Exclusive;
      var me := creators[c];
      assert Scanned(owners, me);
      LockKept(locks, creators, c, Cleared(me.execution, me.claim));
      creators := creators[c := Cleared(me.execution, me.claim)];
    }

    /** The repository root must be empty: no owner record in it and nothing else. */
    method CheckEmpty(c: CreatorId, otherFiles: bool) returns (r: Result<(), CreateError>)
      requires Inv() && c in creators && creators[c].Cleared?
      modifies `locks, `creators
      ensures Inv()
      ensures r.Failure? <==> otherFiles || old(creators)[c].execution in owners
      ensures creators == if r.Failure? then old(creators) - {c}
                          else old(creators)[c := Cloning(old(creators)[c].execution, old(creators)[c].claim)]
    {
      hide AtMostOne, Exclusive, IsValid;
      var me := creators[c];
      if otherFiles || me.execution in owners {
        Leave(c);
        return Failure(NotEmpty);
      }
      assert Scanned(owners, me);
      LockKept(locks, creators, c, Cloning(me.execution, me.claim));
      creators := creators[c := Cloning(me.execution, me.claim)];
      return Success(());
    }

    /** Write the owner record after the clone, over whatever record has come to be there. */
    method WriteOwner(c: CreatorId)
      requires Inv() && c in creators && creators[c].Cloning?
      modifies `owners, `creators
      ensures Inv() && owners == old(owners)[old(creators)[c].execution := old(creators)[c].claim]
      ensures creators == old(creators)[c := Written(old(creators)[c].execution, old(creators)[c].claim)]
    {
      hide AtMostOne, Exclusive, AllScanned, IsValid;
      var me := creators[c];
      HasLock(c);
      OneCreatorPerClaim(locks, creators, c, me.claim);
      RecordAdded(owners, creators, c);
      LockKept(locks, creators, c, Written(me.execution, me.claim));
      owners := owners[me.execution := me.claim];
      creators := creators[c := Written(me.execution, me.claim)];
    }

    /** A repository and its owner record are removed, by a rollback or a cleanup. */
    method Remove(e: ExecutionId)
      requires Inv()
      modifies `owners
      ensures Inv() && owners == old(owners) - {e}
    {
      hide AtMostOne, Exclusive, AllScanned;
      RecordRemoved(owners, creators, e);
      owners := owners - {e};
    }

    /** Any interleaving of creators, cleanups and crashes. */
    method AnyRun(steps: nat)
      requires Inv()
      modifies this
      ensures Inv()
      ensures forall d, e | d in owners && e in owners && owners[d] == owners[e] :: d == e
    {
      for i := 0 to steps
        invariant Inv()
      {
        hide AtMostOne, Exclusive, AllScanned, IsValid;
        var c: CreatorId, e: ExecutionId, claim: Claim := *, *, *;
        if {
          case c !in creators && c !in waiting => var _ := Arrive(c, e, claim);
          case c in waiting => var _ := Lock(c);
          case c in waiting => waiting := waiting - {c};
          case c in creators && creators[c].Scanning? && e in creators[c].todo => var _ := Visit(c, e);
          case c in creators && creators[c].Scanning? && creators[c].todo == {} => Clear(c);
          case c in creators && creators[c].Cleared? => var otherFiles := *; var _ := CheckEmpty(c, otherFiles);
          case c in creators && creators[c].Cloning? => WriteOwner(c);
          case c in creators => Leave(c);
          case true => Remove(e);
        }
      }
    }
  }
}
