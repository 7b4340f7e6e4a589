/** The energy bookkeeping of the ray tracer: histograms, directions and deposits
    (raytrace/accumulate.go, raytrace/directivity_group.go). */
module RayBooks {
  import opened Histograms

  // ---------- Adding energy to a histogram ----------

  function AddLimited(bin: seq<real>, energy: seq<real>): seq<real> {
    seq(|bin|, b requires 0 <= b < |bin| => if b < |energy| then bin[b] + energy[b] else bin[b])
  }

  /** The bin a moment falls into, or -1 if it is not recorded. */
  function BinOf(h: Histogram, t: real): int {
    if h.binDuration <= 0.0 || |h.bins| == 0 || t < 0.0 || t >= h.duration then -1
    else
      var index := (t / h.binDuration).Floor;
      if 0 <= index < |h.bins| then index else -1
  }

  function AddEnergy(h: Histogram, t: real, energy: seq<real>): Histogram {
    var index := BinOf(h, t);
    if index < 0 then h else h.(bins := h.bins[index := AddLimited(h.bins[index], energy)])
  }

  function Share(h: Histogram, t: real, energy: seq<real>, k: nat, b: nat): real {
    if k == BinOf(h, t) && b < |energy| && b < h.bandCount then energy[b] else 0.0
  }

  lemma AddEnergyAt(h: Histogram, t: real, energy: seq<real>, k: nat, b: nat)
    requires Valid(h)
    ensures Valid(AddEnergy(h, t, energy)) && SameGrid(AddEnergy(h, t, energy), h)
    ensures At(AddEnergy(h, t, energy), k, b) == At(h, k, b) + Share(h, t, energy, k, b)
  {
  }

  lemma {:induction false} SumWithUpdate(groups: seq<Histogram>, d: nat, h: Histogram, k: nat, b: nat)
    requires d < |groups|
    ensures SumAt(groups[d := h], k, b) == SumAt(groups, k, b) - At(groups[d], k, b) + At(h, k, b)
    decreases |groups|
  {
    hide At;
    var n := |groups| - 1;
    if d == n {
      assert groups[d := h][..n] == groups[..n];
    } else {
      SumWithUpdate(groups[..n], d, h, k, b);
      assert groups[d := h][..n] == groups[..n][d := h];
    }
  }

  /** The same energy in the total and in one direction keeps them adding up. */
  lemma DepositAddsUp(total: Histogram, groups: seq<Histogram>, d: nat, t: real, energy: seq<real>)
    requires AddsUp(total, groups) && d < |groups|
    ensures AddsUp(AddEnergy(total, t, energy), groups[d := AddEnergy(groups[d], t, energy)])
  {
    var total', groups' := AddEnergy(total, t, energy), groups[d := AddEnergy(groups[d], t, energy)];
    AddEnergyAt(total, t, energy, 0, 0);
    AddEnergyAt(groups[d], t, energy, 0, 0);
    forall k: nat, b: nat
      ensures Balanced(total', groups', k, b)
    {
      assert Balanced(total, groups, k, b);
      AddEnergyAt(total, t, energy, k, b);
      AddEnergyAt(groups[d], t, energy, k, b);
      SumWithUpdate(groups, d, AddEnergy(groups[d], t, energy), k, b);
    }
  }

  // ---------- Deposits ----------

  /** Energy that reaches the receiver, with the squared angular distances to the sectors. */
  datatype Deposit = Deposit(arrivalTime: real, energy: seq<real>, distances: seq<real>)

  /** A histogram with a list of deposits added to it. */
  function AddAll(h: Histogram, deposits: seq<Deposit>): Histogram {
    if deposits == [] then h
    else
      var last := deposits[|deposits| - 1];
      AddEnergy(AddAll(h, deposits[..|deposits| - 1]), last.arrivalTime, last.energy)
  }

  lemma {:induction false} AddAllOfConcat(h: Histogram, a: seq<Deposit>, b: seq<Deposit>)
    ensures AddAll(h, a + b) == AddAll(AddAll(h, a), b)
    decreases |b|
  {
    hide AddEnergy;
    if b == [] {
      assert a + b == a;
    } else {
      assert (a + b)[..|a + b| - 1] == a + b[..|b| - 1];
      AddAllOfConcat(h, a, b[..|b| - 1]);
    }
  }

  /** What a list of deposits holds for one bin and band. */
  function SumOfShares(h: Histogram, deposits: seq<Deposit>, k: nat, b: nat): real {
    if deposits == [] then 0.0
    else
      var last := deposits[|deposits| - 1];
      SumOfShares(h, deposits[..|deposits| - 1], k, b) + Share(h, last.arrivalTime, last.energy, k, b)
  }

  /** Every bin gains exactly what the deposits hold for it: energy is neither lost nor made up. */
  lemma {:induction false} DepositsAreConserved(h: Histogram, deposits: seq<Deposit>, k: nat, b: nat)
    requires Valid(h)
    ensures Valid(AddAll(h, deposits)) && SameGrid(AddAll(h, deposits), h)
    ensures At(AddAll(h, deposits), k, b) == At(h, k, b) + SumOfShares(h, deposits, k, b)
    decreases |deposits|
  {
    hide AddEnergy, At;
    if deposits != [] {
      var front, last := deposits[..|deposits| - 1], deposits[|deposits| - 1];
      DepositsAreConserved(h, front, k, b);
      AddEnergyAt(AddAll(h, front), last.arrivalTime, last.energy, k, b);
      assert |AddAll(h, front).bins| == |h.bins|;
    }
  }

  class EnergyHistogram {
    var bins: Bins
    const duration: real
    const binDuration: real
    const bandCount: int

    ghost function Value(): Histogram
      reads this
    {
      Histogram(bins, duration, binDuration, bandCount)
    }

    constructor (duration: real, binDuration: real, bandCount: int)
      ensures Value() == NewHistogram(duration, binDuration, bandCount)
    {
      this.duration, this.binDuration, this.bandCount := duration, binDuration, bandCount;
      bins := NewHistogram(duration, binDuration, bandCount).bins;
    }

    /** Accumulates energy into the bin that covers the moment, in place. */
    method Add(t: real, energy: seq<real>)
      requires Valid(Value())
      modifies this
      ensures Value() == AddEnergy(old(Value()), t, energy)
    {
      if binDuration <= 0.0 || |bins| == 0 || t < 0.0 || t >= duration {
        return;
      }
      var index := (t / binDuration).Floor;
      if index < 0 || index >= |bins| {
        return;
      }
      var limit := if |energy| < bandCount then |energy| else bandCount;
      var bin := bins[index];
      for b := 0 to limit
        invariant |bin| == bandCount
        invariant forall c | 0 <= c < b :: bin[c] == bins[index][c] + energy[c]
        invariant forall c | b <= c < |bin| :: bin[c] == bins[index][c]
      {
        bin := bin[b := bin[b] + energy[b]];
      }
      assert bin == AddLimited(bins[index], energy);
      bins := bins[index := bin];
    }
  }

  // ---------- Directions ----------

  /** The nearest sector, the first of several; the first sector for the zero vector, which has no
      distances. */
  function Sector(distances: seq<real>): (r: nat)
    ensures if distances == [] then r == 0 else r < |distances|
  {
    if |distances| <= 1 then 0
    else
      var best := Sector(distances[..|distances| - 1]);
      if distances[|distances| - 1] < distances[best] then |distances| - 1 else best
  }

  /** Finds the sector of a direction, given the squared angular distances. */
  method ClassifyDirection(count: nat, distances: seq<real>) returns (index: nat)
    requires count > 0 && (distances == [] || |distances| == count)
    ensures index < count && index == Sector(distances)
    ensures forall i | 0 <= i < |distances| :: distances[index] <= distances[i]
    ensures distances != [] ==> forall i | 0 <= i < index :: distances[index] < distances[i]
  {
    index := 0;
    if distances == [] {
      return;
    }
    for i := 1 to |distances|
      invariant index < i && index == Sector(distances[..i]) && forall j | 0 <= j < i :: distances[index] <= distances[j]
      invariant forall j | 0 <= j < index :: distances[index] < distances[j]
    {
      assert distances[..i + 1][..i] == distances[..i];
      if distances[i] < distances[index] {
        index := i;
      }
    }
    assert distances[..|distances|] == distances;
  }

  /** The deposits that belong to sector `d`. */
  function Into(deposits: seq<Deposit>, d: nat): seq<Deposit> {
    if deposits == [] then []
    else
      var last := deposits[|deposits| - 1];
      Into(deposits[..|deposits| - 1], d) + if Sector(last.distances) == d then [last] else []
  }

  lemma {:induction false} IntoOfConcat(a: seq<Deposit>, b: seq<Deposit>, d: nat)
    ensures Into(a + b, d) == Into(a, d) + Into(b, d)
    decreases |b|
  {
    hide Sector;
    if b == [] {
      assert a + b == a;
    } else {
      assert (a + b)[..|a + b| - 1] == a + b[..|b| - 1];
      IntoOfConcat(a, b[..|b| - 1], d);
    }
  }

  /** The histogram of everything and those of the directions. */
  datatype Books = Books(total: Histogram, groups: seq<Histogram>)

  /** The books with a list of deposits entered: each in the total and in its own sector. */
  function Entered(books: Books, deposits: seq<Deposit>): (r: Books)
    ensures |r.groups| == |books.groups|
  {
    Books(AddAll(books.total, deposits), seq(|books.groups|, d requires 0 <= d < |books.groups| => AddAll(books.groups[d], Into(deposits, d))))
  }

  lemma EnteredNothing(books: Books)
    ensures Entered(books, []) == books
  {
  }

  lemma EnteredInTurn(books: Books, a: seq<Deposit>, b: seq<Deposit>)
    ensures Entered(Entered(books, a), b) == Entered(books, a + b)
  {
    hide AddAll, Into;
    AddAllOfConcat(books.total, a, b);
    var r, q := Entered(Entered(books, a), b).groups, Entered(books, a + b).groups;
    forall d | 0 <= d < |r|
      ensures r[d] == q[d]
    {
      AddAllOfConcat(books.groups[d], Into(a, d), Into(b, d));
      IntoOfConcat(a, b, d);
    }
  }

  lemma OneDeposit(h: Histogram, d: Deposit)
    ensures AddAll(h, [d]) == AddEnergy(h, d.arrivalTime, d.energy)
  {
    assert [d][..0] == [];
  }

  lemma OneEntry(books: Books, deposit: Deposit)
    ensures Entered(books, [deposit]).total == AddEnergy(books.total, deposit.arrivalTime, deposit.energy)
    ensures var s := Sector(deposit.distances);
            Entered(books, [deposit]).groups
            == if s < |books.groups| then books.groups[s := AddEnergy(books.groups[s], deposit.arrivalTime, deposit.energy)] else books.groups
  {
    hide AddEnergy, Sector;
    OneDeposit(books.total, deposit);
    var r := Entered(books, [deposit]).groups;
    forall d | 0 <= d < |r|
      ensures r[d] == if Sector(deposit.distances) == d then AddEnergy(books.groups[d], deposit.arrivalTime, deposit.energy) else books.groups[d]
    {
      assert [deposit][..0] == [];
      assert Into([deposit], d) == if Sector(deposit.distances) == d then [deposit] else [];
      OneDeposit(books.groups[d], deposit);
    }
  }

  ghost predicate Balance(books: Books) {
    books.groups != [] ==> AddsUp(books.total, books.groups)
  }

  ghost predicate UsableDeposit(d: Deposit, groups: nat) {
    d.distances == [] || |d.distances| == groups
  }

  /** Books that balance do so after any deposits. */
  lemma {:induction false} EntriesBalance(books: Books, deposits: seq<Deposit>)
    requires Balance(books) && forall i | 0 <= i < |deposits| :: UsableDeposit(deposits[i], |books.groups|)
    ensures Balance(Entered(books, deposits))
    decreases |deposits|
  {
    hide AddsUp, AddEnergy, Sector;
    if deposits == [] {
      EnteredNothing(books);
    } else {
      var front, last := deposits[..|deposits| - 1], deposits[|deposits| - 1];
      assert deposits == front + [last];
      EntriesBalance(books, front);
      var before := Entered(books, front);
      EnteredInTurn(books, front, [last]);
      OneEntry(before, last);
      if books.groups != [] {
        DepositAddsUp(before.total, before.groups, Sector(last.distances), last.arrivalTime, last.energy);
      }
    }
  }
}
