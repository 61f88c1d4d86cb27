/** The loop every `MomBackup.list_*` method runs over the entries of a
    folder: look the entry's document up, construct a record from it (which
    draws the record's serial ID first), and collect the records in order.
    The methods differ only in what they do with an entry whose document is
    absent and with a record whose construction fails: abort the whole
    listing, or skip the entry and go on. */
module Stages {
  import opened Wrappers
  import opened SerialIds
  import Seqs

  datatype Policy = Abort | Skip

  /** How one listing treats its entries.  `present(f)` says the document
      of entry `f` exists; `eligible(f)` is a test made before any ID is
      drawn, whose failure skips the entry; `valid(f)` says a record can be
      built; `make(id, f)` builds the record with serial ID `id`. */
  datatype Loop<!T> = Loop(
    kind: Kind,
    present: string -> bool,
    eligible: string -> bool,
    valid: string -> bool,
    missing: string -> Error,
    onMissing: Policy,
    onFailure: Policy,
    make: (nat, string) -> Result<T>,
    idOf: T -> int,
    fileOf: T -> string)

  /** The loop's construction is faithful to its own description: it
      succeeds exactly on the valid entries, and the record carries the ID
      it was given and the entry it was built from. */
  ghost predicate WellFormed<T>(l: Loop<T>) {
    && (forall f :: l.valid(f) ==> l.present(f) && l.eligible(f))
    && (forall id: nat, f :: l.present(f) && l.eligible(f) ==> (l.make(id, f).Ok? <==> l.valid(f)))
    && (forall id: nat, f :: l.make(id, f).Ok? ==> l.idOf(l.make(id, f).value) == id)
    && (forall id: nat, f :: l.make(id, f).Ok? ==> l.fileOf(l.make(id, f).value) == f)
  }

  /** The listing reaches its end: no absent document or failing record
      meets an `Abort` policy. */
  ghost predicate Completes<T>(l: Loop<T>, files: seq<string>) {
    && (l.onMissing == Skip || forall i :: 0 <= i < |files| ==> l.present(files[i]))
    && (l.onFailure == Skip || forall i :: 0 <= i < |files| && l.present(files[i]) && l.eligible(files[i]) ==> l.valid(files[i]))
  }

  /** Runs the loop over `files` from the shared counters `c`.  A skipped
      absent document draws no ID; a skipped failing record has drawn one. */
  function Run<T>(l: Loop<T>, files: seq<string>, c: Counters): (s: Stage<seq<T>>)
    ensures forall k :: k != l.kind ==> Current(s.counters, k) == Current(c, k)
    ensures Current(c, l.kind) <= Current(s.counters, l.kind)
    decreases |files|
  {
    if |files| == 0 then Stage(Ok([]), c)
    else
      var before := Run(l, files[..|files| - 1], c);
      var f := files[|files| - 1];
      if before.out.Err? then before
      else if !l.present(f) then
        if l.onMissing == Abort then Stage(Err(l.missing(f)), before.counters) else before
      else if !l.eligible(f) then before
      else
        var a := Next(Construct(Some(before.counters)), l.kind);
        match l.make(a.id, f)
        case Err(e) => if l.onFailure == Abort then Stage(Err(e), a.counters) else Stage(before.out, a.counters)
        case Ok(x) => Stage(Ok(before.out.value + [x]), a.counters)
  }

  /** The listing fails exactly when an absent document or a failing record
      meets an `Abort` policy. */
  lemma {:induction false} RunCompletes<T>(l: Loop<T>, files: seq<string>, c: Counters)
    requires WellFormed(l)
    ensures Run(l, files, c).out.Ok? <==> Completes(l, files)
    decreases |files|
  {
    if |files| > 0 {
      var init := files[..|files| - 1];
      var f := files[|files| - 1];
      assert forall i :: 0 <= i < |init| ==> init[i] == files[i];
      RunCompletes(l, init, c);
      if Completes(l, files) {
        assert Completes(l, init);
      }
    }
  }

  /** The records listed are those of the valid entries, one each, in
      listing order. */
  lemma {:induction false} RunFiles<T>(l: Loop<T>, files: seq<string>, c: Counters)
    requires WellFormed(l)
    requires Run(l, files, c).out.Ok?
    ensures Seqs.Map(Run(l, files, c).out.value, l.fileOf) == Seqs.Filter(files, l.valid)
    decreases |files|
  {
    if |files| > 0 {
      var init := files[..|files| - 1];
      var f := files[|files| - 1];
      assert files == init + [f];
      var before := Run(l, init, c);
      RunFiles(l, init, c);
      var done := before.out.value;
      var r := Run(l, files, c).out.value;
      if l.present(f) && l.eligible(f) {
        var a := Next(Construct(Some(before.counters)), l.kind);
        if l.make(a.id, f).Ok? {
          assert r == done + [l.make(a.id, f).value];
          assert Seqs.Map(r, l.fileOf) == Seqs.Map(done, l.fileOf) + [f];
        }
      }
    }
  }

  /** Every record listed drew its ID during the listing, and the IDs
      strictly increase in listing order. */
  lemma {:induction false} RunIds<T>(l: Loop<T>, files: seq<string>, c: Counters)
    requires WellFormed(l)
    requires Run(l, files, c).out.Ok?
    ensures var s := Run(l, files, c);
            forall k :: 0 <= k < |s.out.value| ==> Current(c, l.kind) < l.idOf(s.out.value[k]) <= Current(s.counters, l.kind)
    ensures Seqs.IncreasingBy(Run(l, files, c).out.value, l.idOf)
    decreases |files|
  {
    if |files| > 0 {
      var init := files[..|files| - 1];
      var f := files[|files| - 1];
      var before := Run(l, init, c);
      RunIds(l, init, c);
      var done := before.out.value;
      if l.present(f) && l.eligible(f) {
        var a := Next(Construct(Some(before.counters)), l.kind);
        if l.make(a.id, f).Ok? {
          var x := l.make(a.id, f).value;
          assert l.idOf(x) == a.id;
          Seqs.IncreasingAppend(done, [x], l.idOf);
        }
      }
    }
  }

  /** Every record listed was built from one of the entries. */
  lemma {:induction false} RunMade<T>(l: Loop<T>, files: seq<string>, c: Counters, k: nat)
    requires Run(l, files, c).out.Ok? && k < |Run(l, files, c).out.value|
    ensures exists id: nat, i :: 0 <= i < |files| && l.make(id, files[i]) == Ok(Run(l, files, c).out.value[k])
    decreases |files|
  {
    var init := files[..|files| - 1];
    var f := files[|files| - 1];
    var before := Run(l, init, c);
    var r := Run(l, files, c).out.value;
    if k < |before.out.value| {
      assert r[k] == before.out.value[k];
      RunMade(l, init, c, k);
      var id: nat, i :| 0 <= i < |init| && l.make(id, init[i]) == Ok(r[k]);
      assert init[i] == files[i];
    } else {
      var a := Next(Construct(Some(before.counters)), l.kind);
      assert l.make(a.id, files[|files| - 1]) == Ok(r[k]);
    }
  }

  /** A folder listing a nested loop can go on with: it parses, or it is
      absent and the caller skips absent folders. */
  predicate Listable(listing: Result<seq<string>>, skipAbsent: bool) {
    listing.Ok? || (skipAbsent && listing.error.NotFound?)
  }

  /** Every loop of a nested listing draws from the same kind and describes
      itself faithfully. */
  ghost predicate Uniform<G(!new), T>(loopOf: G -> Loop<T>, kind: Kind, idOf: T -> int) {
    forall g :: WellFormed(loopOf(g)) && loopOf(g).kind == kind && loopOf(g).idOf == idOf
  }

  /** The outer loop of a nested listing: for each group in turn, read the
      listing of its folder, then run the group's own loop over it.  An
      unreadable listing aborts, except that an absent one is skipped when
      `skipAbsent` holds. */
  function RunGroups<G(!new), T>(groups: seq<G>, listing: G -> Result<seq<string>>, skipAbsent: bool,
                           loopOf: G -> Loop<T>, kind: Kind, c: Counters): (s: Stage<seq<T>>)
    requires forall g :: loopOf(g).kind == kind
    ensures forall k :: k != kind ==> Current(s.counters, k) == Current(c, k)
    ensures Current(c, kind) <= Current(s.counters, kind)
    decreases |groups|
  {
    if |groups| == 0 then Stage(Ok([]), c)
    else
      var before := RunGroups(groups[..|groups| - 1], listing, skipAbsent, loopOf, kind, c);
      var g := groups[|groups| - 1];
      if before.out.Err? then before
      else
        match listing(g)
        case Err(e) => if skipAbsent && e.NotFound? then before else Stage(Err(e), before.counters)
        case Ok(files) =>
          var s := Run(loopOf(g), files, before.counters);
          if s.out.Err? then s else Stage(Ok(before.out.value + s.out.value), s.counters)
  }

  /** The group `g` can be listed to its end. */
  ghost predicate GroupCompletes<G(!new), T>(g: G, listing: G -> Result<seq<string>>, skipAbsent: bool, loopOf: G -> Loop<T>) {
    Listable(listing(g), skipAbsent) && (listing(g).Ok? ==> Completes(loopOf(g), listing(g).value))
  }

  /** The nested listing succeeds exactly when every group can be listed to
      its end. */
  lemma {:induction false} RunGroupsSucceeds<G(!new), T>(groups: seq<G>, listing: G -> Result<seq<string>>, skipAbsent: bool,
                                                   loopOf: G -> Loop<T>, kind: Kind, idOf: T -> int, c: Counters)
    requires Uniform(loopOf, kind, idOf)
    ensures RunGroups(groups, listing, skipAbsent, loopOf, kind, c).out.Ok? <==>
              forall j :: 0 <= j < |groups| ==> GroupCompletes(groups[j], listing, skipAbsent, loopOf)
    decreases |groups|
  {
    if |groups| > 0 {
      var init := groups[..|groups| - 1];
      var g := groups[|groups| - 1];
      RunGroupsSucceeds(init, listing, skipAbsent, loopOf, kind, idOf, c);
      var before := RunGroups(init, listing, skipAbsent, loopOf, kind, c);
      if before.out.Ok? {
        assert forall j :: 0 <= j < |init| ==> GroupCompletes(groups[j], listing, skipAbsent, loopOf) by {
          forall j | 0 <= j < |init| ensures GroupCompletes(groups[j], listing, skipAbsent, loopOf) {
            assert groups[j] == init[j];
          }
        }
        if listing(g).Ok? {
          RunCompletes(loopOf(g), listing(g).value, before.counters);
        }
        if GroupCompletes(g, listing, skipAbsent, loopOf) {
          forall j | 0 <= j < |groups| ensures GroupCompletes(groups[j], listing, skipAbsent, loopOf) {
            if j == |groups| - 1 {
              assert groups[j] == g;
            }
          }
        }
      } else {
        var j :| 0 <= j < |init| && !GroupCompletes(init[j], listing, skipAbsent, loopOf);
        assert groups[j] == init[j];
      }
    }
  }

  /** Every record of a nested listing drew its ID during the listing, and
      the IDs strictly increase in listing order. */
  lemma {:induction false} RunGroupsIds<G(!new), T>(groups: seq<G>, listing: G -> Result<seq<string>>, skipAbsent: bool,
                                              loopOf: G -> Loop<T>, kind: Kind, idOf: T -> int, c: Counters)
    requires Uniform(loopOf, kind, idOf)
    requires RunGroups(groups, listing, skipAbsent, loopOf, kind, c).out.Ok?
    ensures var s := RunGroups(groups, listing, skipAbsent, loopOf, kind, c);
            && (forall i :: 0 <= i < |s.out.value| ==> Current(c, kind) < idOf(s.out.value[i]) <= Current(s.counters, kind))
            && Seqs.IncreasingBy(s.out.value, idOf)
    decreases |groups|
  {
    if |groups| > 0 {
      var init := groups[..|groups| - 1];
      var g := groups[|groups| - 1];
      RunGroupsIds(init, listing, skipAbsent, loopOf, kind, idOf, c);
      var before := RunGroups(init, listing, skipAbsent, loopOf, kind, c);
      if listing(g).Ok? {
        RunIds(loopOf(g), listing(g).value, before.counters);
        Seqs.IncreasingAppend(before.out.value, Run(loopOf(g), listing(g).value, before.counters).out.value, idOf);
      }
    }
  }

  /** Every record of a nested listing was built by the loop of one of the
      groups from an entry of that group's listing. */
  lemma {:induction false} RunGroupsMade<G(!new), T>(groups: seq<G>, listing: G -> Result<seq<string>>, skipAbsent: bool,
                                               loopOf: G -> Loop<T>, kind: Kind, c: Counters, k: nat)
    requires forall g :: loopOf(g).kind == kind
    requires RunGroups(groups, listing, skipAbsent, loopOf, kind, c).out.Ok?
    requires k < |RunGroups(groups, listing, skipAbsent, loopOf, kind, c).out.value|
    ensures exists j, id: nat, f :: 0 <= j < |groups| && listing(groups[j]).Ok? && f in listing(groups[j]).value
              && loopOf(groups[j]).make(id, f) == Ok(RunGroups(groups, listing, skipAbsent, loopOf, kind, c).out.value[k])
    decreases |groups|
  {
    var init := groups[..|groups| - 1];
    var g := groups[|groups| - 1];
    var before := RunGroups(init, listing, skipAbsent, loopOf, kind, c);
    var r := RunGroups(groups, listing, skipAbsent, loopOf, kind, c).out.value;
    if k < |before.out.value| {
      assert r[k] == before.out.value[k];
      RunGroupsMade(init, listing, skipAbsent, loopOf, kind, c, k);
      var j, id: nat, f :| 0 <= j < |init| && listing(init[j]).Ok? && f in listing(init[j]).value
                           && loopOf(init[j]).make(id, f) == Ok(r[k]);
      assert groups[j] == init[j];
    } else {
      var files := listing(g).value;
      var s := Run(loopOf(g), files, before.counters);
      assert r[k] == s.out.value[k - |before.out.value|];
      RunMade(loopOf(g), files, before.counters, k - |before.out.value|);
      var id: nat, i :| 0 <= i < |files| && loopOf(g).make(id, files[i]) == Ok(r[k]);
      assert groups[|groups| - 1] == g;
    }
  }
}
