// Which interface types a radio can hold at the same time.

module Combination {
  import opened Commands

  /** "#{ types } <= max": how many interfaces of these types together. */
  datatype ComboLimit = ComboLimit(max: int, types: seq<string>)

  datatype Combination = Combination(limits: seq<ComboLimit>, total: int, channels: int)

  predicate EqualFold(a: string, b: string) {
    Lower(a) == Lower(b)
  }

  predicate Covers(l: ComboLimit, t: string) {
    exists k :: 0 <= k < |l.types| && EqualFold(l.types[k], t)
  }

  method Has(l: ComboLimit, t: string) returns (has: bool)
    ensures has <==> Covers(l, t)
  {
    for k := 0 to |l.types|
      invariant forall j :: 0 <= j < k ==> !EqualFold(l.types[j], t)
    {
      if EqualFold(l.types[k], t) {
        return true;
      }
    }
    return false;
  }

  // --- what it means ---------------------------------------------------------

  /** How many interfaces an assignment puts in group g. */
  function Count(a: seq<int>, g: int): nat {
    if a == [] then 0 else (if a[0] == g then 1 else 0) + Count(a[1..], g)
  }

  /** Each interface goes to a group that covers its type. */
  predicate Covered(a: seq<int>, types: seq<string>, limits: seq<ComboLimit>) {
    && |a| == |types|
    && forall i :: 0 <= i < |a| ==> 0 <= a[i] < |limits| && Covers(limits[a[i]], types[i])
  }

  /** No group holds more than it may. A group whose maximum is negative is empty. */
  predicate Respects(a: seq<int>, room: seq<int>) {
    forall g :: 0 <= g < |room| ==> Count(a, g) == 0 || Count(a, g) <= room[g]
  }

  function Maxima(limits: seq<ComboLimit>): seq<int> {
    seq(|limits|, g requires 0 <= g < |limits| => limits[g].max)
  }

  predicate Assignment(a: seq<int>, types: seq<string>, limits: seq<ComboLimit>, room: seq<int>) {
    Covered(a, types, limits) && Respects(a, room)
  }

  /** The radio can hold one interface of each of these types at once. */
  ghost predicate Allowed(c: Combination, types: seq<string>) {
    (c.total > 0 ==> |types| <= c.total) && exists a :: Assignment(a, types, c.limits, Maxima(c.limits))
  }

  // --- one interface at a time -----------------------------------------------

  function Take(room: seq<int>, g: int): seq<int>
    requires 0 <= g < |room|
  {
    room[g := room[g] - 1]
  }

  lemma CountCons(g: int, rest: seq<int>, h: int)
    ensures Count([g] + rest, h) == (if g == h then 1 else 0) + Count(rest, h)
  {
    assert ([g] + rest)[1..] == rest;
  }

  /** Putting the first interface in group g leaves the same problem for the others
      with one place less in g. */
  lemma FirstPlace(g: int, rest: seq<int>, types: seq<string>, limits: seq<ComboLimit>, room: seq<int>)
    requires |room| == |limits| && types != [] && 0 <= g < |limits|
    ensures Assignment([g] + rest, types, limits, room) <==>
            room[g] > 0 && Covers(limits[g], types[0]) && Assignment(rest, types[1..], limits, Take(room, g))
  {
    var a := [g] + rest;
    forall h | 0 <= h < |room| ensures Count(a, h) == (if g == h then 1 else 0) + Count(rest, h) {
      CountCons(g, rest, h);
    }
    if Covered(a, types, limits) {
      assert Covers(limits[a[0]], types[0]);
      forall i | 0 <= i < |rest| ensures 0 <= rest[i] < |limits| && Covers(limits[rest[i]], types[1..][i]) {
        assert a[i + 1] == rest[i];
      }
    }
    if Covered(rest, types[1..], limits) && Covers(limits[g], types[0]) {
      forall i | 0 <= i < |a| ensures 0 <= a[i] < |limits| && Covers(limits[a[i]], types[i]) {
        assert i > 0 ==> a[i] == rest[i - 1] && types[i] == types[1..][i - 1];
      }
    }
    assert Respects(a, room) ==> Count(a, g) <= room[g];
    assert Respects(rest, Take(room, g)) && room[g] > 0 ==> Respects(a, room);
    assert Respects(a, room) ==> Respects(rest, Take(room, g));
  }

  /** Some assignment of the remaining types fits what is left. */
  ghost predicate Fits(types: seq<string>, limits: seq<ComboLimit>, room: seq<int>) {
    exists a :: Assignment(a, types, limits, room)
  }

  /** Some assignment puts the first interface in group g. */
  ghost predicate FitsAt(g: int, types: seq<string>, limits: seq<ComboLimit>, room: seq<int>)
    requires |room| == |limits| && types != [] && 0 <= g < |limits|
  {
    room[g] > 0 && Covers(limits[g], types[0]) && Fits(types[1..], limits, Take(room, g))
  }

  lemma FitsFirst(types: seq<string>, limits: seq<ComboLimit>, room: seq<int>)
    requires |room| == |limits| && types != []
    ensures Fits(types, limits, room) <==> exists g :: 0 <= g < |limits| && FitsAt(g, types, limits, room)
  {
    if a :| Assignment(a, types, limits, room) {
      assert a == [a[0]] + a[1..];
      FirstPlace(a[0], a[1..], types, limits, room);
      assert FitsAt(a[0], types, limits, room);
    }
    if g :| 0 <= g < |limits| && FitsAt(g, types, limits, room) {
      var rest :| Assignment(rest, types[1..], limits, Take(room, g));
      FirstPlace(g, rest, types, limits, room);
      assert Assignment([g] + rest, types, limits, room);
    }
  }

  // --- the search ------------------------------------------------------------

  /** Backtracking over the groups. It finds an assignment exactly when there is
      one, and puts the counters back when there is none. */
  method Assign(types: seq<string>, limits: seq<ComboLimit>, remaining: array<int>, i: nat) returns (ok: bool)
    requires i <= |types| && remaining.Length == |limits|
    modifies remaining
    ensures ok <==> Fits(types[i..], limits, old(remaining[..]))
    ensures !ok ==> remaining[..] == old(remaining[..])
    decreases |types| - i
  {
    ghost var room := remaining[..];
    if i == |types| {
      assert Assignment([], types[i..], limits, room);
      return true;
    }
    FitsFirst(types[i..], limits, room);
    assert types[i..][1..] == types[i + 1..];
    for g := 0 to |limits|
      invariant remaining[..] == room
      invariant forall h :: 0 <= h < g ==> !FitsAt(h, types[i..], limits, room)
    {
      var has := Has(limits[g], types[i]);
      if remaining[g] <= 0 || !has {
        continue;
      }
      remaining[g] := remaining[g] - 1;
      assert remaining[..] == Take(room, g);
      var found := Assign(types, limits, remaining, i + 1);
      if found {
        assert FitsAt(g, types[i..], limits, room);
        return true;
      }
      assert remaining[..] == Take(room, g);
      remaining[g] := remaining[g] + 1;
      assert remaining[..] == room;
    }
    return false;
  }

  /** Whether one interface of each type may exist at the same time. */
  method Allows(c: Combination, types: seq<string>) returns (ok: bool)
    ensures ok <==> Allowed(c, types)
  {
    if |types| == 0 {
      assert Assignment([], types, c.limits, Maxima(c.limits));
      return true;
    }
    if c.total > 0 && |types| > c.total {
      return false;
    }
    var remaining := new int[|c.limits|];
    for g := 0 to |c.limits|
      invariant forall h :: 0 <= h < g ==> remaining[h] == c.limits[h].max
    {
      remaining[g] := c.limits[g].max;
    }
    assert remaining[..] == Maxima(c.limits);
    assert types[0..] == types;
    ok := Assign(types, c.limits, remaining, 0);
  }

  lemma {:induction false} CountAll(a: seq<int>)
    requires forall i :: 0 <= i < |a| ==> a[i] == 0
    ensures Count(a, 0) == |a|
  {
    if a != [] {
      CountAll(a[1..]);
    }
  }

  /** A group's maximum is a total across its types and not a permission for each:
      a radio with one group holds what the group covers, up to that many. */
  lemma OneGroupIsATotal(l: ComboLimit, total: int, channels: int, types: seq<string>)
    ensures Allowed(Combination([l], total, channels), types) <==>
            && (total > 0 ==> |types| <= total)
            && (|types| == 0 || |types| <= l.max)
            && forall i :: 0 <= i < |types| ==> Covers(l, types[i])
  {
    var c := Combination([l], total, channels);
    if a :| Assignment(a, types, c.limits, Maxima(c.limits)) {
      CountAll(a);
      forall i | 0 <= i < |types| ensures Covers(l, types[i]) {
        assert Covers(c.limits[a[i]], types[i]);
      }
    }
    if (|types| == 0 || |types| <= l.max) && forall i :: 0 <= i < |types| ==> Covers(l, types[i]) {
      var a := seq(|types|, _ => 0);
      CountAll(a);
      assert Assignment(a, types, c.limits, Maxima(c.limits));
    }
  }
}
