// A configuration update as an account for one setting: which commands are still to come,
// which acknowledgements are, and how many of these the back end still waits for. It says
// when a success will mean that the device has the value asked for.
module Ledgers {
  import opened ConfigStore

  // What a command asks for.
  datatype Ask = Ask(setting: Setting, value: Value)

  // Some command asks for another value of the setting.
  predicate Contradicted(asks: seq<Ask>, x: Setting, v: Value) {
    asks != [] && ((asks[0].setting == x && asks[0].value != v) || Contradicted(asks[1..], x, v))
  }

  // The first command settles the setting: it asks for the value, and no later one for
  // another.
  predicate Settles(asks: seq<Ask>, x: Setting, v: Value)
    requires asks != []
  {
    asks[0] == Ask(x, v) && !Contradicted(asks[1..], x, v)
  }

  // The commands that can be acknowledged without settling the setting, and those of them
  // among the first `k`.
  function Free(asks: seq<Ask>, x: Setting, v: Value): (n: nat)
    ensures n <= |asks|
  {
    if asks == [] then 0 else Free(asks[1..], x, v) + (if Settles(asks, x, v) then 0 else 1)
  }

  function Lead(asks: seq<Ask>, k: nat, x: Setting, v: Value): nat {
    if asks == [] || k == 0 then 0 else Lead(asks[1..], k - 1, x, v) + (if Settles(asks, x, v) then 0 else 1)
  }

  // `held` is the value in the device; `ahead` how many commands may be handled before the
  // first acknowledgement; `acked` whether there has been one; `need` how many the back end
  // still waits for.
  datatype Ledger = Ledger(
    held: Value,
    connected: bool,
    rest: seq<Ask>,
    ahead: nat,
    acks: nat,
    acked: bool,
    need: nat)

  predicate Consistent(l: Ledger) { (l.acked || l.acks == 0) && l.ahead <= |l.rest| }

  // The device has the value, and nothing under way takes it away.
  predicate Safe(l: Ledger, x: Setting, v: Value) { l.held == v && !Contradicted(l.rest, x, v) }

  // Acknowledgements suffice for a success without the setting being settled: one for each
  // item, or, when they may be repeated, a first one.
  predicate Enough(l: Ledger, x: Setting, v: Value, repeats: bool) {
    || l.acks + (if l.connected then Free(l.rest, x, v) else 0) >= l.need
    || (repeats && (l.acked || (l.connected && Lead(l.rest, l.ahead, x, v) > 0)))
  }

  // A success will mean that the device has the value.
  predicate Kept(l: Ledger, x: Setting, v: Value, repeats: bool) {
    Consistent(l) && (Safe(l, x, v) || !Enough(l, x, v, repeats))
  }

  // A success need not mean it.
  predicate Lying(l: Ledger, x: Setting, v: Value, repeats: bool) {
    Consistent(l) && !Safe(l, x, v) && Enough(l, x, v, repeats)
  }

  // ---- The moves ----

  // The first command is lost.
  predicate IsGone(l: Ledger, l': Ledger) {
    && l.rest != [] && l.ahead > 0
    && l' == l.(rest := l.rest[1..], ahead := l.ahead - 1)
  }

  // The first command is handled: at most one acknowledgement, none without connection,
  // and only for the value asked.
  predicate IsHandled(l: Ledger, l': Ledger, x: Setting, answered: bool) {
    && l.rest != [] && l.ahead > 0 && (answered ==> l.connected)
    && l' == l.(rest := l.rest[1..], ahead := l.ahead - 1, held := l'.held,
                acks := l.acks + (if answered then 1 else 0), acked := l.acked || answered)
    && (if l.rest[0].setting == x then l'.held == l.rest[0].value || (!answered && l'.held == l.held)
        else l'.held == l.held)
  }

  // The back end takes an acknowledgement for the end of a wait, or for nothing.
  predicate IsTaken(l: Ledger, l': Ledger) {
    l.acks > 0 && l.need > 0 && l' == l.(acks := l.acks - 1, need := l.need - 1)
  }

  predicate IsWasted(l: Ledger, l': Ledger) { l.acks > 0 && l' == l.(acks := l.acks - 1) }

  predicate IsRepeated(l: Ledger, l': Ledger) { l.acked && l' == l.(acks := l.acks + 1) }

  // An item is sent, the first one or one after an acknowledgement.
  predicate IsSent(l: Ledger, l': Ledger) {
    l'.ahead <= |l.rest| && (l'.ahead == l.ahead || l.acked) && l' == l.(ahead := l'.ahead)
  }

  datatype Move = Rests | Sent | Gone | Handled(answered: bool) | Taken | Wasted | Repeated

  predicate Makes(l: Ledger, m: Move, l': Ledger, x: Setting) {
    match m
    case Rests => l' == l
    case Sent => IsSent(l, l')
    case Gone => IsGone(l, l')
    case Handled(answered) => IsHandled(l, l', x, answered)
    case Taken => IsTaken(l, l')
    case Wasted => IsWasted(l, l')
    case Repeated => IsRepeated(l, l')
  }

  // ---- What every move keeps ----

  lemma FirstOf(asks: seq<Ask>, k: nat, x: Setting, v: Value)
    requires asks != [] && k > 0
    ensures Free(asks, x, v) == Free(asks[1..], x, v) + (if Settles(asks, x, v) then 0 else 1)
    ensures Lead(asks, k, x, v) == Lead(asks[1..], k - 1, x, v) + (if Settles(asks, x, v) then 0 else 1)
    ensures Contradicted(asks, x, v) == ((asks[0].setting == x && asks[0].value != v) || Contradicted(asks[1..], x, v))
  {
  }

  lemma ConsistentMoves(l: Ledger, m: Move, l': Ledger, x: Setting)
    requires Consistent(l) && Makes(l, m, l', x)
    ensures Consistent(l')
  {
  }

  lemma SafeMoves(l: Ledger, m: Move, l': Ledger, x: Setting, v: Value)
    requires Makes(l, m, l', x) && Safe(l, x, v)
    ensures Safe(l', x, v)
  {
    if l.rest != [] && l.ahead > 0 { FirstOf(l.rest, l.ahead, x, v); }
  }

  lemma PoorMoves(l: Ledger, m: Move, l': Ledger, x: Setting, v: Value, repeats: bool)
    requires Consistent(l) && Makes(l, m, l', x) && (m == Repeated ==> repeats) && !Enough(l, x, v, repeats)
    ensures !Enough(l', x, v, repeats) || (m == Handled(true) && Safe(l', x, v))
  {
    if l.rest != [] && l.ahead > 0 { FirstOf(l.rest, l.ahead, x, v); }
  }

  lemma KeptByMove(l: Ledger, m: Move, l': Ledger, x: Setting, v: Value, repeats: bool)
    requires Kept(l, x, v, repeats) && Makes(l, m, l', x) && (m == Repeated ==> repeats)
    ensures Kept(l', x, v, repeats)
  {
    ConsistentMoves(l, m, l', x);
    if Safe(l, x, v) {
      SafeMoves(l, m, l', x, v);
    } else {
      PoorMoves(l, m, l', x, v, repeats);
    }
  }

  // Without a connection the acknowledgements under way are all there will be.
  lemma PoorStays(l: Ledger, m: Move, l': Ledger, x: Setting, v: Value, repeats: bool)
    requires Consistent(l) && !l.connected && !Enough(l, x, v, repeats)
    requires Makes(l, m, l', x) && (m == Repeated ==> repeats)
    ensures Consistent(l') && !l'.connected && !Enough(l', x, v, repeats)
  {
    ConsistentMoves(l, m, l', x);
    PoorMoves(l, m, l', x, v, repeats);
  }

  lemma HeldIsNoMatter(l: Ledger, held: Value, x: Setting, v: Value, repeats: bool)
    ensures Consistent(l.(held := held)) == Consistent(l) && Enough(l.(held := held), x, v, repeats) == Enough(l, x, v, repeats)
  {
  }

  // ---- Moves that spoil no lie ----

  // The first command is lost if it would settle the setting, and otherwise handled
  // without failure.
  predicate IsFate(l: Ledger, l': Ledger, x: Setting, v: Value) {
    && l.rest != []
    && if Settles(l.rest, x, v) then IsGone(l, l')
       else IsHandled(l, l', x, l.connected) && (l.rest[0].setting == x ==> l'.held == l.rest[0].value)
  }

  lemma GoneIsFate(l: Ledger, l': Ledger, x: Setting, v: Value)
    requires Makes(l, Gone, l', x) && l.rest != [] && Settles(l.rest, x, v)
    ensures IsFate(l, l', x, v)
  {
  }

  lemma HandledIsFate(l: Ledger, l': Ledger, x: Setting, v: Value)
    requires Makes(l, Handled(l.connected), l', x) && l.rest != [] && !Settles(l.rest, x, v)
    requires l.rest[0].setting == x ==> l'.held == l.rest[0].value
    ensures IsFate(l, l', x, v)
  {
  }

  lemma FateLeavesUnsafe(l: Ledger, l': Ledger, x: Setting, v: Value)
    requires IsFate(l, l', x, v) && !Safe(l, x, v)
    ensures !Safe(l', x, v)
  {
    FirstOf(l.rest, l.ahead, x, v);
  }

  lemma FateLeavesEnough(l: Ledger, l': Ledger, x: Setting, v: Value, repeats: bool)
    requires IsFate(l, l', x, v) && Enough(l, x, v, repeats)
    ensures Enough(l', x, v, repeats)
  {
    FirstOf(l.rest, l.ahead, x, v);
  }

  lemma FateLies(l: Ledger, l': Ledger, x: Setting, v: Value, repeats: bool)
    requires Lying(l, x, v, repeats) && IsFate(l, l', x, v)
    ensures Lying(l', x, v, repeats)
  {
    FateLeavesUnsafe(l, l', x, v);
    FateLeavesEnough(l, l', x, v, repeats);
  }

  lemma StillLies(l: Ledger, m: Move, l': Ledger, x: Setting, v: Value, repeats: bool)
    requires Lying(l, x, v, repeats) && Makes(l, m, l', x) && (m == Sent || m == Taken || (repeats && m == Repeated))
    ensures Lying(l', x, v, repeats)
  {
  }

  // When the fate of the next item brings no acknowledgement and none is under way, one
  // may be repeated.
  lemma FedByRepetition(l: Ledger, x: Setting, v: Value, repeats: bool)
    requires Lying(l, x, v, repeats) && l.acks == 0 && l.rest != [] && l.need == |l.rest| && l.ahead <= 1
    requires Settles(l.rest, x, v) || !l.connected
    ensures repeats && l.acked
  {
    FirstOf(l.rest, 1, x, v);
    assert Lead(l.rest[1..], 0, x, v) == 0;
  }

  // ---- The counts in other words ----

  lemma {:induction false} ContradictedIs(asks: seq<Ask>, x: Setting, v: Value)
    ensures Contradicted(asks, x, v) <==> exists i :: 0 <= i < |asks| && asks[i].setting == x && asks[i].value != v
  {
    if asks != [] {
      ContradictedIs(asks[1..], x, v);
      assert forall i :: 0 <= i < |asks| - 1 ==> asks[1..][i] == asks[i + 1];
      assert forall i :: 0 < i < |asks| ==> asks[i] == asks[1..][i - 1];
    }
  }

  // No command is free exactly if all ask for the same.
  lemma {:induction false} NoneFree(asks: seq<Ask>, x: Setting, v: Value)
    ensures Free(asks, x, v) == 0 <==> forall i :: 0 <= i < |asks| ==> asks[i] == Ask(x, v)
  {
    if asks != [] {
      NoneFree(asks[1..], x, v);
      ContradictedIs(asks[1..], x, v);
      assert forall i :: 0 < i < |asks| ==> asks[i] == asks[1..][i - 1];
      assert forall i :: 0 <= i < |asks| - 1 ==> asks[1..][i] == asks[i + 1];
    }
  }

  lemma {:induction false} AllLead(asks: seq<Ask>, x: Setting, v: Value)
    ensures Lead(asks, |asks|, x, v) == Free(asks, x, v)
  {
    if asks != [] { AllLead(asks[1..], x, v); }
  }

  // One command is the last to ask for the setting.
  predicate IsLast(asks: seq<Ask>, k: nat, x: Setting, v: Value) {
    k < |asks| && asks[k] == Ask(x, v) && forall i :: k < i < |asks| ==> asks[i].setting != x
  }

  lemma LastExtends(asks: seq<Ask>, k: nat, x: Setting, v: Value)
    requires asks != [] && asks[|asks| - 1].setting != x
    ensures IsLast(asks, k, x, v) <==> IsLast(asks[..|asks| - 1], k, x, v)
  {
  }

  lemma {:induction false} OneSettles(asks: seq<Ask>, k: nat, x: Setting, v: Value)
    requires IsLast(asks, k, x, v)
    ensures Free(asks, x, v) < |asks|
  {
    if k == 0 {
      ContradictedIs(asks[1..], x, v);
    } else {
      assert IsLast(asks[1..], k - 1, x, v);
      OneSettles(asks[1..], k - 1, x, v);
    }
  }

  // The value when all of the commands have arrived.
  function Arrived(held: Value, asks: seq<Ask>, x: Setting): Value
    decreases |asks|
  {
    if asks == [] then held else Arrived(if asks[0].setting == x then asks[0].value else held, asks[1..], x)
  }

  lemma {:induction false} NothingArrives(held: Value, asks: seq<Ask>, x: Setting)
    requires !Contradicted(asks, x, held)
    ensures Arrived(held, asks, x) == held
  {
    if asks != [] { NothingArrives(held, asks[1..], x); }
  }

  // Losing the last command alone would show.
  predicate Needed(held: Value, asks: seq<Ask>, k: nat, x: Setting, v: Value) {
    IsLast(asks, k, x, v) && Arrived(held, asks[..k], x) != v
  }

  // All others are free then.
  lemma {:induction false} OnlyOneSettles(held: Value, asks: seq<Ask>, k: nat, x: Setting, v: Value)
    requires Needed(held, asks, k, x, v)
    ensures Free(asks, x, v) == |asks| - 1 && (k > 0 ==> !Settles(asks, x, v)) && (held == v ==> Contradicted(asks, x, v))
    decreases |asks|
  {
    ContradictedIs(asks, x, v);
    if k == 0 {
      NoneAsks(asks[1..], x, v);
    } else {
      assert asks[..k][1..] == asks[1..][..k - 1];
      var held' := if asks[0].setting == x then asks[0].value else held;
      assert Needed(held', asks[1..], k - 1, x, v);
      OnlyOneSettles(held', asks[1..], k - 1, x, v);
    }
  }

  lemma {:induction false} NoneAsks(asks: seq<Ask>, x: Setting, v: Value)
    requires forall i :: 0 <= i < |asks| ==> asks[i].setting != x
    ensures Free(asks, x, v) == |asks|
  {
    if asks != [] { NoneAsks(asks[1..], x, v); }
  }

  lemma {:induction false} Joined(a: seq<Ask>, b: seq<Ask>, x: Setting, v: Value)
    ensures Contradicted(a + b, x, v) == (Contradicted(a, x, v) || Contradicted(b, x, v))
    ensures Free(a + b, x, v) >= Free(b, x, v) + (if a != [] && !Settles(a + b, x, v) then 1 else 0)
  {
    if a == [] {
      assert a + b == b;
    } else {
      assert (a + b)[1..] == a[1..] + b;
      Joined(a[1..], b, x, v);
    }
  }

  // The account of a request for one item.
  lemma ForOneItem(l: Ledger, queue: seq<Ask>, x: Setting, v: Value, repeats: bool)
    requires l.rest == queue + [Ask(x, v)] && l.need == 1 && l.ahead == |l.rest| && (l.acked <==> l.acks > 0)
    ensures Safe(l, x, v) || !Enough(l, x, v, repeats) <==>
      || (l.held == v && forall i :: 0 <= i < |queue| ==> queue[i].setting == x ==> queue[i].value == v)
      || (l.acks == 0 && (l.connected ==> forall i :: 0 <= i < |queue| ==> queue[i] == Ask(x, v)))
  {
    Joined(queue, [Ask(x, v)], x, v);
    ContradictedIs(queue, x, v);
    NoneFree(l.rest, x, v);
    AllLead(l.rest, x, v);
    assert forall i :: 0 <= i < |queue| ==> l.rest[i] == queue[i];
  }

  // The second of two commands for different settings is needed.
  lemma SecondNeeded(held: Value, a: Ask, x: Setting, v: Value)
    requires a.setting != x && held != v
    ensures Needed(held, [a, Ask(x, v)], 1, x, v)
  {
    assert [a, Ask(x, v)][..1] == [a] && [a][1..] == [];
  }
}
