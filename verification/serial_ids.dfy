/** `SerialIDGenerator` (modules/models/serial_id_generator.py): one counter
    per kind of record, held in state that every generator instance shares
    (the Borg pattern), so that constructing a new generator never resets it.

    The model makes the shared state an explicit `Counters` value that the
    pipeline threads from one constructor call to the next. */
module SerialIds {
  import opened Wrappers

  /** The class objects the source passes to `get_serial_id`.  Every charter
      variant is built through `XmlCharter.__init__` and every collection
      variant through `XmlCollection.__init__`, so they share one kind each. */
  datatype Kind =
    | ArchiveKind | FondKind | CollectionKind | CharterKind | UserKind
    | PersonKind | PersonNameKind | IndexPersonKind

  /** The shared `counters` dictionary. */
  type Counters = map<Kind, nat>

  /** The last ID handed out for `kind`, or 0 when `kind` was never seen. */
  function Current(c: Counters, kind: Kind): nat {
    if kind in c then c[kind] else 0
  }

  /** An ID together with the counters after handing it out. */
  datatype Allocation = Allocation(id: nat, counters: Counters)

  /** `SerialIDGenerator()`: `shared` is the Borg state, None before the first
      generator has been constructed. */
  function Construct(shared: Option<Counters>): (c: Counters)
    ensures shared.None? ==> forall k :: Current(c, k) == 0
    ensures shared.Some? ==> forall k :: Current(c, k) == Current(shared.value, k)
  {
    match shared
    case None => map[]
    case Some(counters) => counters
  }

  /** `get_serial_id(kind)` */
  function Next(c: Counters, kind: Kind): (a: Allocation)
    ensures kind !in c ==> a.id == 1
    ensures a.id == Current(c, kind) + 1 && Current(a.counters, kind) == a.id
    ensures forall k :: k != kind ==> (k in a.counters <==> k in c) && Current(a.counters, k) == Current(c, k)
  {
    var n := Current(c, kind) + 1;
    Allocation(n, c[kind := n])
  }

  /** What a constructor or a stage leaves behind: its outcome, and the
      shared counters after every ID it handed out, including those handed
      out before it failed. */
  datatype Stage<+T> = Stage(out: Result<T>, counters: Counters)

  /** `id` has already been handed out for `kind`. */
  ghost predicate Issued(c: Counters, kind: Kind, id: int) {
    1 <= id <= Current(c, kind)
  }

  /** No counter ever goes down from `c` to `c'`. */
  ghost predicate Advanced(c: Counters, c': Counters) {
    forall k :: Current(c, k) <= Current(c', k)
  }

  /** A new ID differs from every ID handed out before for its kind, and every
      earlier ID of every kind stays handed out. */
  lemma NextIsFresh(c: Counters, kind: Kind)
    ensures !Issued(c, kind, Next(c, kind).id)
    ensures Issued(Next(c, kind).counters, kind, Next(c, kind).id)
    ensures Advanced(c, Next(c, kind).counters)
  {
  }

  /** `n` records of one kind, each constructed through a fresh
      `SerialIDGenerator()`: they receive the next `n` numbers, in order, so
      IDs within a kind strictly increase and never repeat, and no other kind
      moves. */
  method AllocateRun(c: Counters, kind: Kind, n: nat) returns (ids: seq<nat>, c': Counters)
    ensures |ids| == n
    ensures forall i :: 0 <= i < n ==> ids[i] == Current(c, kind) + i + 1
    ensures forall i, j :: 0 <= i < j < n ==> ids[i] < ids[j]
    ensures Current(c', kind) == Current(c, kind) + n
    ensures forall k :: k != kind ==> Current(c', k) == Current(c, k)
  {
    ids := [];
    c' := c;
    while |ids| < n
      invariant |ids| <= n
      invariant forall i :: 0 <= i < |ids| ==> ids[i] == Current(c, kind) + i + 1
      invariant Current(c', kind) == Current(c, kind) + |ids|
      invariant forall k :: k != kind ==> Current(c', k) == Current(c, k)
    {
      var a := Next(Construct(Some(c')), kind);
      ids := ids + [a.id];
      c' := a.counters;
    }
  }
}
