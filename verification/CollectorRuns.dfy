/**
 Collection runs, their items and counters, and the persistence methods the
 Collector engine calls. Each method commits as a whole or leaves the rows
 alone; any of them may raise.
 */
module CollectorRuns {
  import opened Options
  import opened Transitions
  import opened NormalizerDb
  import opened NormalizerEffects

  type RunId = nat

  datatype ItemOutcome = SourceCommitted | AlreadyAvailable | ItemFailed

  datatype Item = Item(run: RunId, reel: Shortcode, position: nat, outcome: ItemOutcome)

  datatype Run = Run(account: AccountId, status: RunStatus, target: nat,
                     committed: nat, available: nat, failed: nat, cancelRequested: bool)

  /** What the transition table lets one write do to a run's status; rewriting a status is no change. */
  predicate LegalRunStep(status: RunStatus, status': RunStatus) {
    status == status' || TransitionAllowed(RunTransitions, status, status')
  }

  /** A run that had a row moved by a step of the table, or not at all. */
  predicate RunMovedLegally(runs: map<RunId, Run>, runs': map<RunId, Run>, r: RunId) {
    r in runs ==> r in runs' && LegalRunStep(runs[r].status, runs'[r].status)
  }

  /******* Accounting *******/

  /** The items of one run, in insertion order. */
  function ItemsOf(items: seq<Item>, r: RunId): (own: seq<Item>)
    ensures |own| <= |items|
    ensures forall item :: item in own <==> item in items && item.run == r
  {
    if items == [] then []
    else
      var n := |items| - 1;
      ItemsOf(items[..n], r) + (if items[n].run == r then [items[n]] else [])
  }

  function Count(items: seq<Item>, outcome: ItemOutcome): (n: nat)
    ensures n <= |items|
  {
    if items == [] then 0
    else Count(items[..|items| - 1], outcome) + (if items[|items| - 1].outcome == outcome then 1 else 0)
  }

  function Total(run: Run): nat {
    run.committed + run.available + run.failed
  }

  /**
   A run's books balance: positions are exactly 1..n with n the sum of the
   counters, each counter counts its outcome, no reel appears twice, and the
   sum stays within the target.
   */
  ghost predicate Balanced(items: seq<Item>, r: RunId, run: Run) {
    var own := ItemsOf(items, r);
    && |own| == Total(run) <= run.target
    && (forall i :: 0 <= i < |own| ==> own[i].position == i + 1)
    && run.committed == Count(own, SourceCommitted)
    && run.available == Count(own, AlreadyAvailable)
    && run.failed == Count(own, ItemFailed)
    && (forall i, j :: 0 <= i < j < |own| ==> own[i].reel != own[j].reel)
  }

  /** The unique and check constraints on which an insert can fail. */
  predicate Insertable(items: seq<Item>, r: RunId, run: Run, reel: Shortcode) {
    && Total(run) < run.target
    && forall item :: item in items ==> !(item.run == r && item.reel == reel)
  }

  /** The run has room for another item, and none for this reel yet; what other runs have does not matter. */
  ghost predicate HasRoom(runs: map<RunId, Run>, items: seq<Item>, r: RunId, reel: Shortcode) {
    && r in runs && runs[r].committed + runs[r].available + runs[r].failed < runs[r].target
    && !exists item :: item in items && item.run == r && item.reel == reel
  }

  function Counted(run: Run, outcome: ItemOutcome): Run {
    match outcome
    case SourceCommitted => run.(committed := run.committed + 1)
    case AlreadyAvailable => run.(available := run.available + 1)
    case ItemFailed => run.(failed := run.failed + 1)
  }

  lemma ItemsAppend(items: seq<Item>, r: RunId, item: Item)
    ensures ItemsOf(items + [item], r) == ItemsOf(items, r) + if item.run == r then [item] else []
  {
    assert (items + [item])[..|items|] == items;
  }

  lemma CountAppend(own: seq<Item>, item: Item, outcome: ItemOutcome)
    ensures Count(own + [item], outcome) == Count(own, outcome) + if item.outcome == outcome then 1 else 0
  {
    assert (own + [item])[..|own|] == own;
  }

  lemma AddItemKeepsBalance(items: seq<Item>, r: RunId, run: Run, reel: Shortcode, outcome: ItemOutcome)
    requires Balanced(items, r, run) && Insertable(items, r, run, reel)
    ensures Balanced(items + [Item(r, reel, Total(run) + 1, outcome)], r, Counted(run, outcome))
  {
    hide ItemsOf;
    hide Count;
    var item := Item(r, reel, Total(run) + 1, outcome);
    var own := ItemsOf(items, r);
    ItemsAppend(items, r, item);
    CountAppend(own, item, SourceCommitted);
    CountAppend(own, item, AlreadyAvailable);
    CountAppend(own, item, ItemFailed);
    forall i | 0 <= i < |own|
      ensures own[i].reel != reel
    {
      assert own[i] in own;
    }
  }

  lemma AddItemKeepsOthers(items: seq<Item>, q: RunId, run: Run, item: Item)
    requires Balanced(items, q, run) && item.run != q
    ensures Balanced(items + [item], q, run)
  {
    assert (items + [item])[..|items|] == items;
    assert ItemsOf(items + [item], q) == ItemsOf(items, q);
  }

  /** Every run's books balance and every item belongs to a run. */
  ghost predicate BooksOk(runs: map<RunId, Run>, items: seq<Item>) {
    && (forall r :: r in runs ==> Balanced(items, r, runs[r]))
    && (forall item :: item in items ==> item.run in runs)
  }

  lemma EditKeepsBalance(items: seq<Item>, r: RunId, run: Run, edited: Run)
    requires Balanced(items, r, run)
    requires edited == run.(status := edited.status, cancelRequested := edited.cancelRequested)
    ensures Balanced(items, r, edited)
  {
    hide ItemsOf;
    hide Count;
  }

  /** Status and cancellation do not enter the books. */
  lemma EditKeepsBooks(runs: map<RunId, Run>, items: seq<Item>, r: RunId, run: Run)
    requires BooksOk(runs, items) && r in runs
    requires run == runs[r].(status := run.status, cancelRequested := run.cancelRequested)
    ensures BooksOk(runs[r := run], items)
  {
    hide Balanced;
    EditKeepsBalance(items, r, runs[r], run);
  }

  lemma AddItemKeepsBooks(runs: map<RunId, Run>, items: seq<Item>, r: RunId, reel: Shortcode, outcome: ItemOutcome)
    requires BooksOk(runs, items) && r in runs && Insertable(items, r, runs[r], reel)
    ensures BooksOk(runs[r := Counted(runs[r], outcome)], items + [Item(r, reel, Total(runs[r]) + 1, outcome)])
  {
    hide Balanced;
    var item := Item(r, reel, Total(runs[r]) + 1, outcome);
    AddItemKeepsBalance(items, r, runs[r], reel, outcome);
    forall q | q in runs && q != r
      ensures Balanced(items + [item], q, runs[q])
    {
      AddItemKeepsOthers(items, q, runs[q], item);
    }
  }

  lemma {:induction false} NoItems(items: seq<Item>, r: RunId)
    requires forall item :: item in items ==> item.run != r
    ensures ItemsOf(items, r) == []
  {
    if items != [] {
      NoItems(items[..|items| - 1], r);
      assert items[|items| - 1] in items;
    }
  }

  lemma NewRunBalanced(items: seq<Item>, r: RunId, run: Run)
    requires ItemsOf(items, r) == [] && Total(run) == 0
    ensures Balanced(items, r, run)
  {
    hide ItemsOf;
  }

  lemma NewRunKeepsBooks(runs: map<RunId, Run>, items: seq<Item>, r: RunId, run: Run)
    requires BooksOk(runs, items) && r !in runs && Total(run) == 0
    ensures BooksOk(runs[r := run], items)
  {
    hide Balanced;
    hide ItemsOf;
    NoItems(items, r);
    NewRunBalanced(items, r, run);
  }

  /******* Ownership *******/

  predicate Acquisition(outcome: ItemOutcome) {
    outcome.SourceCommitted? || outcome.AlreadyAvailable?
  }

  predicate DurableReel(db: Db, r: Shortcode) {
    r in db.reels && Durable(db.reels[r].status) && db.reels[r].source.Some?
  }

  /** The distinct durable reels that the account's runs acquired. */
  function AccountDurable(runs: map<RunId, Run>, items: seq<Item>, db: Db, account: AccountId): set<Shortcode> {
    set i | 0 <= i < |items| && items[i].run in runs && runs[items[i].run].account == account
            && Acquisition(items[i].outcome) && DurableReel(db, items[i].reel)
      :: items[i].reel
  }

  /** The account acquired the reel in some run of its own, and the reel is still durable with its source. */
  ghost predicate Owns(runs: map<RunId, Run>, items: seq<Item>, db: Db, account: AccountId, reel: Shortcode) {
    && (exists item :: item in items && Acquires(runs, item, account, reel))
    && reel in db.reels && db.reels[reel].status in {SourceReady, Normalizing, Ready} && db.reels[reel].source.Some?
  }

  predicate Acquires(runs: map<RunId, Run>, item: Item, account: AccountId, reel: Shortcode) {
    && item.reel == reel && item.outcome in {SourceCommitted, AlreadyAvailable}
    && item.run in runs && runs[item.run].account == account
  }

  lemma OwnedExactly(runs: map<RunId, Run>, items: seq<Item>, db: Db, account: AccountId, reel: Shortcode)
    ensures reel in AccountDurable(runs, items, db, account) <==> Owns(runs, items, db, account, reel)
  {
    if Owns(runs, items, db, account, reel) {
      var item :| item in items && Acquires(runs, item, account, reel);
      var i :| 0 <= i < |items| && items[i] == item;
    } else if reel in AccountDurable(runs, items, db, account) {
      var i :| 0 <= i < |items| && items[i].run in runs && runs[items[i].run].account == account
               && Acquisition(items[i].outcome) && DurableReel(db, items[i].reel) && items[i].reel == reel;
      assert Acquires(runs, items[i], account, reel);
    }
  }

  /**
   One more item raises the account's total by one exactly if it is an
   acquisition by a run of that account, of a durable reel the account did not
   own yet; any other item leaves it as it was.
   */
  lemma TotalAfterItem(runs: map<RunId, Run>, items: seq<Item>, db: Db, account: AccountId, item: Item)
    ensures var before, after := AccountDurable(runs, items, db, account), AccountDurable(runs, items + [item], db, account);
            if && item.run in runs && runs[item.run].account == account
               && item.outcome in {SourceCommitted, AlreadyAvailable}
               && item.reel in db.reels && db.reels[item.reel].status in {SourceReady, Normalizing, Ready}
               && db.reels[item.reel].source.Some?
               && !Owns(runs, items, db, account, item.reel)
            then after == before + {item.reel} && |after| == |before| + 1
            else after == before
  {
    var before, after := AccountDurable(runs, items, db, account), AccountDurable(runs, items + [item], db, account);
    forall reel
      ensures reel in after <==> reel in before || (Acquires(runs, item, account, reel) && DurableReel(db, reel))
    {
      OwnedExactly(runs, items, db, account, reel);
      OwnedExactly(runs, items + [item], db, account, reel);
      OwnsMore(runs, items, db, account, item, reel);
    }
    OwnedExactly(runs, items, db, account, item.reel);
    hide AccountDurable;
    hide Owns;
    if item.reel in before || !Acquires(runs, item, account, item.reel) || !DurableReel(db, item.reel) {
      assert after == before;
    } else {
      assert after == before + {item.reel};
    }
  }

  lemma OwnsMore(runs: map<RunId, Run>, items: seq<Item>, db: Db, account: AccountId, item: Item, reel: Shortcode)
    ensures Owns(runs, items + [item], db, account, reel) <==>
            Owns(runs, items, db, account, reel) || (Acquires(runs, item, account, reel) && DurableReel(db, reel))
  {
    assert forall i :: i in items + [item] <==> i in items || i == item;
  }

  /** The account owns exactly so many reels. */
  ghost predicate OwnsExactly(runs: map<RunId, Run>, items: seq<Item>, db: Db, account: AccountId, total: nat) {
    exists owned: set<Shortcode> :: |owned| == total && forall reel :: reel in owned <==> Owns(runs, items, db, account, reel)
  }

  lemma OwnsExactlyTotal(runs: map<RunId, Run>, items: seq<Item>, db: Db, account: AccountId, total: nat)
    ensures OwnsExactly(runs, items, db, account, total) <==> |AccountDurable(runs, items, db, account)| == total
  {
    var owned := AccountDurable(runs, items, db, account);
    forall reel
      ensures reel in owned <==> Owns(runs, items, db, account, reel)
    {
      OwnedExactly(runs, items, db, account, reel);
    }
    hide AccountDurable;
    hide Owns;
    if other: set<Shortcode> :| |other| == total && forall reel :: reel in other <==> Owns(runs, items, db, account, reel) {
      assert other == owned;
    }
  }

  /** What normalizer workers may do to the reels meanwhile: sources stay, durable reels move on or fail. */
  ghost predicate NormalizerMoves(db: Db, db': Db) {
    && db'.reels.Keys == db.reels.Keys
    && forall r :: r in db.reels ==>
         && db'.reels[r].source == db.reels[r].source
         && (if Durable(db.reels[r].status)
             then Durable(db'.reels[r].status) || db'.reels[r].status.ReelFailed?
             else db'.reels[r].status == db.reels[r].status)
  }

  /******* What one call may write *******/

  /** All rows at one moment, and what `account_has_durable_reel` has answered yes to so far. */
  datatype Books = Books(runs: map<RunId, Run>, items: seq<Item>, db: Db, owned: set<(AccountId, Shortcode)>)

  /** The run acquired the reel in the database. */
  ghost predicate Acquired(b: Books, r: RunId, reel: Shortcode) {
    exists item :: item in b.items && item.run == r && item.reel == reel && Acquisition(item.outcome)
  }

  /** The database has confirmed the reel: acquired by this run, or owned by its account. */
  ghost predicate Settled(b: Books, r: RunId, reel: Shortcode) {
    Acquired(b, r, reel) || (r in b.runs && (b.runs[r].account, reel) in b.owned)
  }

  predicate NamesSource(db: Db, reel: Shortcode) {
    reel in db.reels && db.reels[reel].source.Some? && db.reels[reel].source.value.key == SourceKey(reel)
  }

  /** The run committed a source for the reel, and the reel row names that source. */
  ghost predicate SourceReferenced(b: Books, r: RunId, reel: Shortcode) {
    && (exists item :: item in b.items && item.run == r && item.reel == reel && item.outcome.SourceCommitted?)
    && NamesSource(b.db, reel)
  }

  predicate SameRow(run: Run, run': Run) {
    run' == run.(cancelRequested := run'.cancelRequested)
  }

  ghost predicate SourcesKept(db: Db, db': Db, except: set<Shortcode>) {
    && (forall reel :: reel in db.reels && reel !in except ==>
          reel in db'.reels && db'.reels[reel].source == db.reels[reel].source)
    && (forall reel :: reel in db'.reels && reel !in db.reels ==> reel in except)
    && (forall reel :: NamesSource(db, reel) ==> NamesSource(db', reel))
  }

  /** Run `r` gained the given item and nothing else; other runs, earlier items and other sources are as before. */
  ghost predicate Wrote(b: Books, b': Books, r: RunId, reel: Shortcode, written: Option<ItemOutcome>) {
    && r in b.runs && r in b'.runs
    && b.owned <= b'.owned
    && (forall q :: q in b.runs && q != r ==> q in b'.runs && b'.runs[q] == b.runs[q])
    && (if written.None? then
          && b'.items == b.items
          && SameRow(b.runs[r], b'.runs[r])
          && SourcesKept(b.db, b'.db, {})
        else
          && Insertable(b.items, r, b.runs[r], reel)
          && b'.items == b.items + [Item(r, reel, Total(b.runs[r]) + 1, written.value)]
          && SameRow(Counted(b.runs[r], written.value), b'.runs[r])
          && SourcesKept(b.db, b'.db, {reel})
          && (written.value.SourceCommitted? ==> NamesSource(b'.db, reel)))
  }

  /******* Calm *******/

  /** No run and no item changed, no source changed, and no reel became durable or stopped being so. */
  ghost predicate Undisturbed(b: Books, b': Books) {
    && b'.runs == b.runs && b'.items == b.items && b'.db.reels.Keys == b.db.reels.Keys
    && forall reel :: reel in b.db.reels ==>
         && b'.db.reels[reel].source == b.db.reels[reel].source
         && (Durable(b'.db.reels[reel].status) <==> Durable(b.db.reels[reel].status))
  }

  /** Nothing happened to the run from b to b', and no one has asked to cancel it. */
  ghost predicate Quiet(b: Books, b': Books, r: RunId) {
    Undisturbed(b, b') && r in b.runs && !b.runs[r].cancelRequested
  }

  lemma QuietTrans(b: Books, mid: Books, b': Books, r: RunId)
    requires Quiet(b, mid, r) && Undisturbed(mid, b')
    ensures Quiet(b, b', r)
  {
  }

  lemma QuietTwice(b: Books, mid: Books, b': Books, r: RunId)
    requires Quiet(b, mid, r) && Quiet(mid, b', r)
    ensures Quiet(b, b', r)
  {
  }

  lemma QuietNow(b: Books, r: RunId)
    requires r in b.runs && !b.runs[r].cancelRequested
    ensures Quiet(b, b, r)
  {
  }

  /** `commit_source` finds room for an item of this reel, and the reel not yet durable. */
  ghost predicate CanCommit(b: Books, r: RunId, reel: Shortcode) {
    && HasRoom(b.runs, b.items, r, reel)
    && (reel in b.db.reels ==> !Durable(b.db.reels[reel].status))
  }

  lemma QuietCanCommit(b: Books, b': Books, r: RunId, reel: Shortcode)
    requires Quiet(b, b', r)
    ensures CanCommit(b, r, reel) ==> CanCommit(b', r, reel)
    ensures HasRoom(b.runs, b.items, r, reel) ==> HasRoom(b'.runs, b'.items, r, reel)
    ensures !b'.runs[r].cancelRequested
  {
  }

  lemma QuietThenSteady(b: Books, mid: Books, b': Books, r: RunId)
    requires Quiet(b, mid, r) && Steady(mid, b', r)
    ensures Steady(b, b', r)
  {
  }

  lemma UndisturbedOwner(b: Books, b': Books, account: AccountId, reel: Shortcode)
    requires Undisturbed(b, b')
    ensures Owns(b.runs, b.items, b.db, account, reel) <==> Owns(b'.runs, b'.items, b'.db, account, reel)
  {
  }

  /** Every durable reel has its source. */
  ghost predicate Sourced(db: Db) {
    forall reel :: reel in db.reels && Durable(db.reels[reel].status) ==> db.reels[reel].source.Some?
  }

  /** Durable reels stay durable, and no one asked to cancel the run. */
  ghost predicate Steady(b: Books, b': Books, r: RunId) {
    && (forall reel :: DurableReel(b.db, reel) ==> DurableReel(b'.db, reel))
    && (Sourced(b.db) ==> Sourced(b'.db))
    && (r in b.runs && r in b'.runs ==> b'.runs[r].cancelRequested == b.runs[r].cancelRequested)
  }

  lemma UndisturbedIsSteady(b: Books, b': Books, r: RunId)
    requires Undisturbed(b, b')
    ensures Steady(b, b', r)
  {
  }

  /** The bytes of the sources that one run committed. */
  function RunBytes(items: seq<Item>, db: Db, r: RunId): nat {
    if items == [] then 0
    else
      var item := items[|items| - 1];
      RunBytes(items[..|items| - 1], db, r) +
      if item.run == r && item.outcome.SourceCommitted? && NamesSource(db, item.reel)
      then db.reels[item.reel].source.value.size else 0
  }

  lemma {:induction false} RunBytesKept(items: seq<Item>, db: Db, db': Db, r: RunId, except: set<Shortcode>)
    requires SourcesKept(db, db', except)
    requires forall item :: item in items && item.run == r ==> item.reel !in except
    ensures RunBytes(items, db', r) == RunBytes(items, db, r)
  {
    if items != [] {
      assert items[|items| - 1] in items;
      RunBytesKept(items[..|items| - 1], db, db', r, except);
    }
  }

  /** A call's effect on the run's byte count. */
  lemma WroteBytes(b: Books, b': Books, r: RunId, reel: Shortcode, written: Option<ItemOutcome>)
    requires Wrote(b, b', r, reel, written)
    ensures RunBytes(b'.items, b'.db, r) == RunBytes(b.items, b.db, r) +
              if written == Some(SourceCommitted) then b'.db.reels[reel].source.value.size else 0
  {
    if written.None? {
      RunBytesKept(b.items, b.db, b'.db, r, {});
    } else {
      RunBytesKept(b.items, b.db, b'.db, r, {reel});
      assert b'.items[..|b.items|] == b.items;
    }
  }

  lemma WroteKeepsSettled(b: Books, b': Books, r: RunId, reel: Shortcode, written: Option<ItemOutcome>, other: Shortcode)
    requires Wrote(b, b', r, reel, written)
    ensures Settled(b, r, other) ==> Settled(b', r, other)
    ensures SourceReferenced(b, r, other) ==> SourceReferenced(b', r, other)
  {
    hide SourcesKept;
    if Acquired(b, r, other) {
      var item :| item in b.items && item.run == r && item.reel == other && Acquisition(item.outcome);
      assert item in b'.items;
    }
    if SourceReferenced(b, r, other) {
      var item :| item in b.items && item.run == r && item.reel == other && item.outcome.SourceCommitted?;
      assert item in b'.items;
      KeepsName(b.db, b'.db, if written.None? then {} else {reel}, other);
    }
  }

  lemma KeepsName(db: Db, db': Db, except: set<Shortcode>, reel: Shortcode)
    requires SourcesKept(db, db', except) && NamesSource(db, reel)
    ensures NamesSource(db', reel)
  {
  }

  lemma QuietThenWrote(b: Books, mid: Books, b': Books, r: RunId, reel: Shortcode, written: Option<ItemOutcome>)
    requires Wrote(b, mid, r, reel, None) && Wrote(mid, b', r, reel, written)
    ensures Wrote(b, b', r, reel, written)
  {
  }

  /******* Persistence *******/

  class Persistence {
    var runs: map<RunId, Run>
    var items: seq<Item>
    var db: Db
    ghost var confirmedOwned: set<(AccountId, Shortcode)>

    ghost predicate Valid()
      reads this
    {
      BooksOk(runs, items)
    }

    ghost function Now(): Books
      reads this
    {
      Books(runs, items, db, confirmedOwned)
    }

    lemma Rows()
      ensures Now() == Books(runs, items, db, confirmedOwned)
    {
    }

    /**
     Normalizer workers and the operator's cancel button act between the
     engine's calls; when it is calm no one cancels and no durable reel fails.
     */
    method Interfere(r: RunId, calm: bool)
      requires Valid() && r in runs
      modifies this`runs, this`db
      ensures Valid() && NormalizerMoves(old(db), db)
      ensures calm ==> Undisturbed(old(Now()), Now())
      ensures forall reel :: Wrote(old(Now()), Now(), r, reel, None)
    {
      hide BooksOk;
      var cancel: bool := *;
      if cancel && !calm {
        EditKeepsBooks(runs, items, r, runs[r].(cancelRequested := true));
        runs := runs[r := runs[r].(cancelRequested := true)];
      }
      var moved := db;
      var steps: nat := *;
      while steps > 0
        invariant NormalizerMoves(old(db), moved)
        invariant calm ==> forall reel :: reel in moved.reels ==>
                    (Durable(moved.reels[reel].status) <==> Durable(old(db).reels[reel].status))
      {
        var reel: Shortcode := *;
        if reel in moved.reels && Durable(moved.reels[reel].status) {
          var status: ReelStatus := *;
          if Durable(status) || (status.ReelFailed? && !calm) {
            moved := moved.(reels := moved.reels[reel := moved.reels[reel].(status := status)]);
          }
        }
        steps := steps - 1;
      }
      db := moved;
      assert SourcesKept(old(db), db, {});
    }

    /** `account_has_durable_reel`: ownership is run-item history of a still durable reel. */
    method AccountHasDurableReel(account: AccountId, reel: Shortcode) returns (owned: bool)
      modifies this`confirmedOwned
      ensures owned <==> Owns(runs, items, db, account, reel)
      ensures owned <==> reel in AccountDurable(runs, items, db, account)
      ensures confirmedOwned == old(confirmedOwned) + if owned then {(account, reel)} else {}
    {
      OwnedExactly(runs, items, db, account, reel);
      owned := reel in AccountDurable(runs, items, db, account);
      if owned {
        confirmedOwned := confirmedOwned + {(account, reel)};
      }
    }

    /** `create_run` under the fresh id r: a running run with empty books, unless the account has an active one. */
    method CreateRun(account: AccountId, target: nat, r: RunId, raises: bool) returns (created: Option<RunId>)
      requires Valid()
      modifies this`runs
      ensures Valid()
      ensures created.Some? <==>
              && !raises && r !in old(runs)
              && forall q :: q in old(runs) && old(runs)[q].account == account ==> old(runs)[q].status !in {RunQueued, RunRunning}
      ensures created.Some? ==>
                && created.value == r
                && runs == old(runs)[created.value := Run(account, RunRunning, target, 0, 0, 0, false)]
      ensures created.None? ==> runs == old(runs)
    {
      if raises || r in runs || exists q :: q in runs && runs[q].account == account && runs[q].status in {RunQueued, RunRunning} {
        return None;
      }
      NewRunKeepsBooks(runs, items, r, Run(account, RunRunning, target, 0, 0, 0, false));
      runs := runs[r := Run(account, RunRunning, target, 0, 0, 0, false)];
      created := Some(r);
    }

    /** `_add_item` inside an open transaction; false is a constraint violation. */
    method AddItem(r: RunId, reel: Shortcode, outcome: ItemOutcome) returns (ok: bool)
      requires Valid()
      modifies this`items, this`runs
      ensures ok <==> HasRoom(old(runs), old(items), r, reel)
      ensures Valid()
      ensures ok ==>
                && items == old(items) + [Item(r, reel, Total(old(runs)[r]) + 1, outcome)]
                && runs == old(runs)[r := Counted(old(runs)[r], outcome)]
      ensures !ok ==> items == old(items) && runs == old(runs)
    {
      hide BooksOk;
      if r !in runs {
        return false;
      }
      var run := runs[r];
      var position := run.committed + run.available + run.failed + 1;
      if !Insertable(items, r, run, reel) {
        return false;
      }
      AddItemKeepsBooks(runs, items, r, reel, outcome);
      items := items + [Item(r, reel, position, outcome)];
      if outcome.SourceCommitted? {
        run := run.(committed := run.committed + 1);
      } else if outcome.AlreadyAvailable? {
        run := run.(available := run.available + 1);
      } else {
        run := run.(failed := run.failed + 1);
      }
      runs := runs[r := run];
      ok := true;
    }

    /** `commit_available`: only for a reel that is still durable. */
    method CommitAvailable(r: RunId, reel: Shortcode, raises: bool) returns (ok: bool)
      requires Valid()
      modifies this`items, this`runs
      ensures Valid()
      ensures ok <==>
              && !raises && reel in db.reels && db.reels[reel].status in {SourceReady, Normalizing, Ready}
              && HasRoom(old(runs), old(items), r, reel)
      ensures ok ==>
                && reel in db.reels && Durable(db.reels[reel].status)
                && Wrote(old(Now()), Now(), r, reel, Some(AlreadyAvailable)) && Steady(old(Now()), Now(), r)
      ensures !ok ==> Now() == old(Now())
    {
      hide BooksOk;
      if raises || reel !in db.reels || !Durable(db.reels[reel].status) {
        return false;
      }
      ok := AddItem(r, reel, AlreadyAvailable);
    }

    /** `commit_source`: reel, job and item together, or nothing. */
    method CommitSource(r: RunId, reel: Shortcode, content: Bytes, raises: bool) returns (ok: bool)
      requires Valid()
      modifies this
      ensures Valid()
      ensures ok <==>
              && !raises && |content| > 0
              && (reel in old(db).reels ==> old(db).reels[reel].status in {Discovered, Downloading, ReelFailed})
              && HasRoom(old(runs), old(items), r, reel)
      ensures ok ==>
                && CommitSourceTx(old(db), reel, content) == Some(db)
                && Wrote(old(Now()), Now(), r, reel, Some(SourceCommitted)) && Steady(old(Now()), Now(), r)
                && db.reels[reel].status.SourceReady?
                && db.reels[reel].source == Some(Source(SourceKey(reel), Sha256(content), |content|))
      ensures !ok ==> Now() == old(Now())
    {
      hide BooksOk;
      CommitSourceEffect(db, reel, content);
      var committed := CommitSourceTx(db, reel, content);
      if raises || committed.None? || |content| == 0 {  // `source_byte_size > 0`
        return false;
      }
      ok := AddItem(r, reel, SourceCommitted);
      if ok {
        db := committed.value;
        assert SourcesKept(old(db), db, {reel});
      }
    }

    /** `record_failure`: the reel row and a failed item, or nothing. */
    method RecordFailure(r: RunId, reel: Shortcode, reason: StopReason, raises: bool) returns (ok: bool)
      requires Valid()
      modifies this
      ensures Valid()
      ensures ok <==> !raises && HasRoom(old(runs), old(items), r, reel)
      ensures ok ==>
                && Wrote(old(Now()), Now(), r, reel, Some(ItemFailed))
                && db == RecordFailureTx(old(db), reel, CollectorReason(reason))
      ensures !ok ==> Now() == old(Now())
    {
      hide BooksOk;
      if raises {
        return false;
      }
      ok := AddItem(r, reel, ItemFailed);
      if ok {
        db := RecordFailureTx(db, reel, CollectorReason(reason));
        assert SourcesKept(old(db), db, {reel});
      }
    }

    method FailRun(r: RunId, raises: bool)
      requires Valid()
      modifies this`runs
      ensures Valid()
      ensures runs == if !raises && r in old(runs) && old(runs)[r].status.RunRunning?
                      then old(runs)[r := old(runs)[r].(status := RunFailed)] else old(runs)
    {
      hide BooksOk;
      if !raises && r in runs && runs[r].status.RunRunning? {
        EditKeepsBooks(runs, items, r, runs[r].(status := RunFailed));
        runs := runs[r := runs[r].(status := RunFailed)];
      }
    }

    method CancelRun(r: RunId, raises: bool)
      requires Valid()
      modifies this`runs
      ensures Valid()
      ensures runs == if !raises && r in old(runs) && (old(runs)[r].status.RunQueued? || old(runs)[r].status.RunRunning?)
                      then old(runs)[r := old(runs)[r].(status := RunCancelled)] else old(runs)
    {
      hide BooksOk;
      if !raises && r in runs && (runs[r].status.RunQueued? || runs[r].status.RunRunning?) {
        EditKeepsBooks(runs, items, r, runs[r].(status := RunCancelled));
        runs := runs[r := runs[r].(status := RunCancelled)];
      }
    }

    /** `complete_run` looks at no status; false is an exception. */
    method CompleteRun(r: RunId, raises: bool) returns (ok: bool)
      requires Valid()
      modifies this`runs
      ensures Valid() && ok == !raises
      ensures ok ==> runs == if r in old(runs) then old(runs)[r := old(runs)[r].(status := RunCompleted)] else old(runs)
      ensures !ok ==> runs == old(runs)
      ensures ok && r in old(runs) ==>
                (LegalRunStep(old(runs)[r].status, runs[r].status) <==> old(runs)[r].status in {RunRunning, RunCompleted})
    {
      hide BooksOk;
      if raises {
        return false;
      }
      if r in runs {
        EditKeepsBooks(runs, items, r, runs[r].(status := RunCompleted));
        runs := runs[r := runs[r].(status := RunCompleted)];
      }
      ok := true;
    }

    /** Completes only a running run, and only at exactly the desired account total. */
    method CompleteIfAccountDurableTotal(r: RunId, desired: nat, raises: bool) returns (ok: bool)
      requires Valid()
      modifies this`runs
      ensures Valid()
      ensures ok <==>
              && !raises && r in old(runs) && old(runs)[r].status.RunRunning?
              && OwnsExactly(old(runs), items, db, old(runs)[r].account, desired)
      ensures ok ==>
                && r in old(runs) && old(runs)[r].status.RunRunning?
                && |AccountDurable(old(runs), items, db, old(runs)[r].account)| == desired
                && runs == old(runs)[r := old(runs)[r].(status := RunCompleted)]
                && LegalRunStep(old(runs)[r].status, runs[r].status)
      ensures !ok ==> runs == old(runs)
    {
      hide BooksOk;
      if raises || r !in runs || !runs[r].status.RunRunning? {
        return false;
      }
      OwnsExactlyTotal(runs, items, db, runs[r].account, desired);
      if |AccountDurable(runs, items, db, runs[r].account)| != desired {
        return false;
      }
      EditKeepsBooks(runs, items, r, runs[r].(status := RunCompleted));
      runs := runs[r := runs[r].(status := RunCompleted)];
      ok := true;
    }
  }
}
