/**
 The mutable live document (core/data_model/live_document.cpp): slot records,
 monotonic keys, and the operations that link, move and erase them.

 The methods take any state, as the source does: they test what they read and
 raise `bad` where the source calls mark_integrity_bad. What a method promises
 holds when it starts from a well-formed document.
 */
module LiveDocument {
  import opened LiveNode
  import opened Forest
  import opened Traversal
  import opened DocumentState
  import opened Content
  import opened Merging
  import Integrity
  import Requests

  /** How many more records there are slots and keys for, when memory is granted. */
  ghost function SpareOf(granted: bool, size: nat, next: Key): int {
    if !granted || next == NO_KEY then 0
    else if SLOT_LIMIT - size < 0xffff_ffff_ffff_fffe - next then SLOT_LIMIT - size else 0xffff_ffff_ffff_fffe - next
  }

  lemma SpareMeans(granted: bool, size: nat, next: Key, cost: nat)
    requires 0 < cost <= SpareOf(granted, size, next)
    ensures granted && size + cost <= SLOT_LIMIT && NO_KEY < next < 0xffff_ffff_ffff_ffff - cost
  {
  }

  lemma KeysCounted(nodes: Nodes, nodes': Nodes)
    requires nodes'.Keys <= nodes.Keys
    ensures |nodes'| <= |nodes| && (nodes'.Keys == nodes.Keys ==> |nodes'| == |nodes|)
  {
    Subset(nodes'.Keys, nodes.Keys);
    assert |nodes'| == |nodes'.Keys| && |nodes| == |nodes.Keys|;
  }

  lemma {:induction false} Subset(a: set<Slot>, b: set<Slot>)
    requires a <= b
    ensures |a| <= |b|
  {
    assert b == a + (b - a);
  }

  /** Fewer records leave more room. */
  lemma SpareGrows(granted: bool, size: nat, next: Key, size': nat)
    requires size' <= size
    ensures SpareOf(granted, size', next) >= SpareOf(granted, size, next)
  {
  }

  lemma SpareSpent(granted: bool, size: nat, next: Key, size': nat, next': Key, cost: nat)
    requires granted && next != NO_KEY && next' != NO_KEY && size' <= size + cost && next' <= next + cost
    ensures SpareOf(granted, size', next') >= SpareOf(granted, size, next) - cost
  {
  }

  class LiveDocument {
    /** Whether text holds a line break; the text rules themselves are a parameter. */
    const breaks: LineBreaks
    /** Whether memory is there whenever it is asked for; otherwise any request may be refused. */
    const granted: bool

    var nodes: Nodes
    var keyAt: map<Slot, Key>
    var slotOf: map<Key, Slot>
    var names: seq<Bytes>
    var strings: seq<Bytes>
    var root: Key
    var nextKey: Key
    var bad: bool

    ghost var kids: Kids
    ghost var rank: Rank
    ghost var bound: nat

    predicate IsReady()
      reads this
    {
      root != NO_KEY && !bad
    }

    ghost function Shape(): Traversal.Shape
      reads this
    {
      Traversal.Shape(nodes, kids, rank, bound)
    }

    ghost predicate Inv()
      reads this
    {
      && KeysValid(nodes, keyAt, slotOf, nextKey)
      && IsForest(nodes, kids, rank, bound)
      && PayloadsValid(nodes, |names|, |strings|)
      && TablesValid(breaks, names, strings)
      && RootValid(nodes, keyAt, slotOf, root)
    }

    /** A document is well formed, or knows that it cannot be used. */
    ghost predicate Valid()
      reads this
    {
      IsReady() ==> Inv()
    }

    function SlotOf(k: Key): Slot
      reads this
    {
      if k != NO_KEY && k in slotOf then slotOf[k] else NO_SLOT
    }

    function KeyOf(s: Slot): Key
      reads this
    {
      if s in keyAt then keyAt[s] else NO_KEY
    }

    predicate Contains(k: Key)
      reads this
    {
      IsValue(nodes, SlotOf(k))
    }

    /** The children of a value, by slot. */
    ghost function Children(k: Key): seq<Slot>
      reads this
    {
      KidsOf(nodes, kids, SlotOf(k))
    }

    /** How many children a value has, by the count that its aggregate keeps. */
    function ChildCount(k: Key): nat
      reads this
    {
      if Contains(k) && IsAggregate(nodes, nodes[SlotOf(k)].owned) then nodes[nodes[SlotOf(k)].owned].count else 0
    }

    function FirstChild(k: Key): Key
      reads this
    {
      if Contains(k) && IsAggregate(nodes, nodes[SlotOf(k)].owned) then KeyOf(nodes[nodes[SlotOf(k)].owned].first) else NO_KEY
    }

    /** Counts and links are those of the list of children. */
    lemma ChildrenKnown(k: Key)
      requires Inv() && Contains(k)
      ensures ChildCount(k) == |Children(k)|
      ensures Children(k) != [] ==>
        var c := Children(k)[0];
        && IsValue(nodes, c) && Up(nodes, c) == SlotOf(k) && FirstChild(k) in slotOf && slotOf[FirstChild(k)] == c && FirstChild(k) != NO_KEY
        && nodes[c].parent != NO_SLOT && FirstChild(k) != root
    {
      Known();
      var v := SlotOf(k);
      assert Paired(nodes, v);
      if IsContainer(nodes[v].payload.vtype) {
        ContainerFacts(nodes, kids, rank, bound, v);
        assert Ends(nodes[nodes[v].owned], kids[nodes[v].owned]);
      }
      if Children(k) != [] { KidsUp(nodes, kids, v, 0); }
    }

    // -------------------------------------------------------------------
    // Attachment

    /** Why a candidate is turned away before its position is looked at. */
    function Screened(destination: Key, candidate: Key): Rejection
      reads this
    {
      if !IsReady() then DocumentNotReady
      else if !Contains(destination) then DestinationNotFound
      else if !Contains(candidate) then CandidateNotFound
      else if !IsContainer(nodes[SlotOf(destination)].payload.vtype) then DestinationNotContainer
      else if candidate == root then CandidateIsRoot
      else if !Unattached(nodes[SlotOf(candidate)]) then CandidateNotDetached
      else Accepted
    }

    /** The verdict on a candidate, in terms of the tree: object members are named and
        unique, and no value may be placed inside itself. */
    ghost function Verdict(destination: Key, candidate: Key): Rejection
      reads this
    {
      var screened := Screened(destination, candidate);
      if !screened.Accepted? then screened
      else Admission(nodes, kids, SlotOf(destination), SlotOf(candidate))
    }

    /** Climbs from `value` to the top of its tree, noting whether `sought` is passed. */
    method QueryAncestry(value: Slot, sought: Slot) returns (ok: bool, found: bool)
      modifies `bad
      ensures old(bad) ==> bad
      ensures old(Inv()) && IsValue(nodes, value) ==> ok && bad == old(bad) && (found <==> Under(nodes, value, sought))
    {
      ok, found := false, false;
      var current := value;
      var rootSlot := SlotOf(root);
      ghost var good := Inv() && IsValue(nodes, value);
      ghost var seen: set<Slot> := {};
      var hops := 0;
      while hops <= |nodes|
        invariant bad == old(bad)
        invariant good ==> IsValue(nodes, current) && hops == |seen| && seen <= nodes.Keys
        invariant good ==> forall s :: s in seen ==> IsValue(nodes, s) && rank[s] > rank[current]
        invariant good ==> (Under(nodes, value, sought) <==> found || Under(nodes, current, sought))
      {
        if !IsValue(nodes, current) {
          bad := true;
          return;
        }
        if good { UnderStep(nodes, current, sought); }
        if current == sought { found := true; }
        if current == rootSlot {
          ok := true;
          return;
        }
        assert good ==> Placed(nodes, kids, current);
        var a := nodes[current].parent;
        if a < 0 {
          ok := Unattached(nodes[current]);
          return;
        }
        if a !in nodes {
          bad := true;
          return;
        }
        if good {
          UpIsValue(nodes, kids, current);
          seen := seen + {current};
        }
        current := if nodes[a].Aggregate? then nodes[a].owner else NO_SLOT;
        hops := hops + 1;
      }
      if good { SubsetSize(seen, nodes.Keys); }
      bad := true;
    }

    /** `previous` and `next` are the neighbours of place `at` among the children of `d`. */
    ghost predicate Fits(d: Slot, previous: Slot, next: Slot, at: nat)
      reads this
    {
      var ks := KidsOf(nodes, kids, d);
      at <= |ks| && previous == At(ks, at - 1) && next == At(ks, at)
    }

    /** The neighbours belong side by side, but not in `d`. */
    ghost predicate Foreign(d: Slot, previous: Slot, next: Slot)
      reads this
    {
      && IsValue(nodes, next) && next >= 0 && nodes[next].prev == previous
      && IsValue(nodes, d) && nodes[next].parent != nodes[d].owned
    }

    /** Looks for a member of aggregate `a` that already carries `name`. */
    method ScanMembers(a: Slot, name: nat) returns (r: Rejection)
      requires IsAggregate(nodes, a)
      modifies `bad
      ensures old(bad) ==> bad
      ensures old(Inv()) ==>
        && bad == old(bad) && a in kids
        && r == if exists i :: 0 <= i < |kids[a]| && NameAt(nodes, kids[a][i]) == name then DuplicateObjectName else Accepted
    {
      ghost var good := Inv();
      if good { KidsFit(nodes, kids, a); }
      var existing := nodes[a].first;
      var visited := 0;
      while existing >= 0
        invariant visited <= |nodes|
        invariant good ==> visited <= |kids[a]| && existing == At(kids[a], visited)
        invariant good ==> forall j :: 0 <= j < visited ==> NameAt(nodes, kids[a][j]) != name
        decreases |nodes| - visited
        modifies `bad
        invariant bad == old(bad)
      {
        if good { KidIsValue(nodes, kids, a, visited); }
        if !IsValue(nodes, existing) || visited >= |nodes| { bad := true; return CorruptStructure; }
        if nodes[existing].name == name {
          assert good ==> NameAt(nodes, kids[a][visited]) == name;
          return DuplicateObjectName;
        }
        existing := nodes[existing].next;
        visited := visited + 1;
      }
      if good && visited < |kids[a]| { KidIsValue(nodes, kids, a, visited); }
      return Accepted;
    }

    /** The link writes of an attachment. */
    method LinkChild(a: Slot, c: Slot, previous: Slot, next: Slot)
      requires IsAggregate(nodes, a) && IsValue(nodes, c)
      requires previous >= 0 ==> IsValue(nodes, previous)
      requires next >= 0 ==> IsValue(nodes, next)
      modifies `nodes
      ensures nodes == LinkIn(old(nodes), a, c, previous, next)
    {
      nodes := nodes[c := nodes[c].(parent := a, prev := previous, next := next)];
      if previous >= 0 { nodes := nodes[previous := nodes[previous].(next := c)]; }
      else { nodes := nodes[a := nodes[a].(first := c)]; }
      if next >= 0 { nodes := nodes[next := nodes[next].(prev := c)]; }
      else { nodes := nodes[a := nodes[a].(last := c)]; }
      nodes := nodes[a := nodes[a].(count := nodes[a].count + 1)];
    }

    /** Whether `previous` and `next` can be the neighbours of a new child of `a`. */
    method CheckPosition(a: Slot, previous: Slot, next: Slot, ghost at: nat) returns (r: Rejection)
      requires IsAggregate(nodes, a)
      modifies `bad
      ensures r.Accepted? ==> (previous >= 0 ==> IsValue(nodes, previous)) && (next >= 0 ==> IsValue(nodes, next)) && bad == old(bad)
      ensures old(Inv()) && a in kids && at <= |kids[a]| && previous == At(kids[a], at - 1) && next == At(kids[a], at) ==>
        r.Accepted? && bad == old(bad)
      ensures old(Inv()) && old(IsValue(nodes, next)) && next >= 0 && old(nodes[next].prev) == previous && old(nodes[next].parent) != a ==>
        if previous == NO_SLOT then r == InsertBeforeNotChild && bad == old(bad) else r == CorruptStructure && bad
    {
      if Inv() && a in kids && at <= |kids[a]| && previous == At(kids[a], at - 1) && next == At(kids[a], at) {
        PlaceFacts(nodes, kids, a, at);
      }
      if Inv() && IsValue(nodes, next) && next >= 0 && nodes[next].prev == previous && nodes[next].parent != a {
        StrayFacts(nodes, kids, a, next);
      }
      hide Inv, IsValue, At;
      if next >= 0 {
        if !IsValue(nodes, next) { return InsertBeforeNotChild; }
      } else if previous != nodes[a].last {
        return InsertBeforeNotChild;
      }
      if previous >= 0 {
        if !IsValue(nodes, previous) { bad := true; return CorruptStructure; }
      } else if next != nodes[a].first {
        return InsertBeforeNotChild;
      }
      if previous >= 0 && next >= 0
         && !(nodes[previous].parent == a && nodes[next].parent == a && IsPreviousOf(nodes[previous], nodes[next], previous, next)) {
        bad := true;
        return CorruptStructure;
      }
      if previous < 0 && next >= 0 && !HasFirst(nodes[a], nodes[next], a, next) { return InsertBeforeNotChild; }
      if previous >= 0 && next < 0 && !HasLast(nodes[a], nodes[previous], a, previous) { return InsertBeforeNotChild; }
      return Accepted;
    }

    /** Whether aggregate `a` of value `d` takes `c` as a child: the checks that need no position. */
    method Admit(d: Slot, c: Slot, a: Slot, constructed: bool) returns (r: Rejection)
      requires IsValue(nodes, d) && IsValue(nodes, c) && IsAggregate(nodes, a)
      modifies `bad
      ensures old(Inv()) && IsContainer(nodes[d].payload.vtype) && nodes[d].owned == a ==>
        && bad == old(bad)
        && (!constructed ==> r == Admission(nodes, kids, d, c))
        && (constructed && Admission(nodes, kids, d, c).Accepted? ==> r.Accepted?)
    {
      hide Unattached;
      ghost var good := Inv() && IsContainer(nodes[d].payload.vtype) && nodes[d].owned == a;
      assert good ==> Paired(nodes, d);
      if good { UnderStep(nodes, d, c); }
      if !Accepts(nodes[a], nodes[c]) {
        return if nodes[a].kind.ObjectKind? then ObjectEntryRequired else CorruptStructure;
      }
      if !constructed && nodes[a].kind.ObjectKind? {
        r := ScanMembers(a, nodes[c].name);
        if !r.Accepted? { return; }
      }
      var cycle := d == c;
      if !constructed {
        var ok;
        ok, cycle := QueryAncestry(d, c);
        if !ok { return CorruptStructure; }
      }
      return if cycle then CycleFound else Accepted;
    }

    /** `LinkChild` on a well-formed document, for a child that was admitted. */
    method CommitChild(d: Slot, c: Slot, a: Slot, previous: Slot, next: Slot, ghost fits: bool, ghost at: nat)
      requires IsAggregate(nodes, a) && IsValue(nodes, c)
      requires previous >= 0 ==> IsValue(nodes, previous)
      requires next >= 0 ==> IsValue(nodes, next)
      requires fits ==> Inv() && Admissible(nodes, kids, slotOf, root, d, c) && nodes[d].owned == a
      requires fits ==> a in kids && at <= |kids[a]| && previous == At(kids[a], at - 1) && next == At(kids[a], at)
      modifies `nodes, `kids, `rank, `bound
      ensures fits ==> Inv() && LinkedUnder(old(nodes), old(kids), nodes, kids, d, c, at)
    {
      hide IsForest, PayloadsValid, RootValid, TablesValid, KeysValid, LinkedUnder, Admissible, LinkIn;

      ghost var rank', bound' := rank, bound;
      if fits {
        rank', bound' := CommitForest(nodes, kids, rank, bound, |names|, |strings|, keyAt, slotOf, root, d, c, a, previous, next, at);
        kids := kids[a := InsertAt(kids[a], at, c)];
      }
      LinkChild(a, c, previous, next);
      rank, bound := rank', bound';
      if fits { KeysSame(old(nodes), nodes, keyAt, slotOf, nextKey); }
    }

    /** Attaches the detached value `c` to container `d` between `previous` and `next`. */
    method AttachScreened(d: Slot, c: Slot, previous: Slot, next: Slot, constructed: bool, ghost at: nat) returns (r: Rejection)
      requires IsValue(nodes, d) && IsContainer(nodes[d].payload.vtype) && IsValue(nodes, c)
      modifies `nodes, `kids, `rank, `bound, `bad
      ensures !r.Accepted? ==> nodes == old(nodes) && kids == old(kids)
      ensures old(Inv() && Unattached(nodes[c]) && c != SlotOf(root) && Fits(d, previous, next, at)
        && (constructed ==> Admission(nodes, kids, d, c).Accepted?)) ==>
        && r == old(Admission(nodes, kids, d, c)) && bad == old(bad) && Inv()
        && (r.Accepted? ==> LinkedUnder(old(nodes), old(kids), nodes, kids, d, c, at))
      ensures old(Inv() && Foreign(d, previous, next)) ==>
        if previous == NO_SLOT then r == InsertBeforeNotChild && bad == old(bad) && Inv() else r == CorruptStructure && bad
    {
      hide IsForest, PayloadsValid, RootValid, TablesValid, KeysValid, LinkedUnder, Admission;
      var a := nodes[d].owned;
      ghost var fits := Inv() && Unattached(nodes[c]) && c != SlotOf(root) && Fits(d, previous, next, at)
        && (constructed ==> Admission(nodes, kids, d, c).Accepted?);
      if Inv() {
        ContainerFacts(nodes, kids, rank, bound, d);
        RootFacts(nodes, keyAt, slotOf, root);
      }
      if a !in nodes || !AggregateValid(nodes[a]) || nodes[a].owner != d || !FormsPair(nodes[d], nodes[a], d, a) {
        bad := true;
        return CorruptStructure;
      }
      r := CheckPosition(a, previous, next, at);
      if r.Accepted? {
        r := Admit(d, c, a, constructed);
        if r.Accepted? {
          CommitChild(d, c, a, previous, next, fits, at);
        }
      }
    }

    /** Attaches a detached candidate between `previous` and `next`. `constructed` leaves out
        the searches for a second member of the same name and for a cycle. */
    method AttachChild(destination: Key, candidate: Key, previous: Slot, next: Slot, constructed: bool, ghost at: nat)
      returns (r: Rejection)
      modifies `nodes, `kids, `rank, `bound, `bad
      ensures !r.Accepted? ==> nodes == old(nodes) && kids == old(kids)
      ensures old(Valid()) && !old(Screened(destination, candidate)).Accepted? ==>
        r == old(Screened(destination, candidate)) && bad == old(bad) && Valid()
      ensures old(Valid() && Screened(destination, candidate).Accepted? && Fits(SlotOf(destination), previous, next, at)
        && (constructed ==> Verdict(destination, candidate).Accepted?)) ==>
        && r == old(Verdict(destination, candidate)) && bad == old(bad) && Valid()
        && (r.Accepted? ==> LinkedUnder(old(nodes), old(kids), nodes, kids, SlotOf(destination), SlotOf(candidate), at))
      ensures old(Valid() && Screened(destination, candidate).Accepted? && Foreign(SlotOf(destination), previous, next)) ==>
        if previous == NO_SLOT then r == InsertBeforeNotChild && bad == old(bad) && Valid() else r == CorruptStructure && bad
    {
      hide Up;
      r := Screened(destination, candidate);
      if !r.Accepted? { return; }
      hide IsForest, PayloadsValid, RootValid, TablesValid, KeysValid, LinkedUnder, Admission;
      var d, c := SlotOf(destination), SlotOf(candidate);
      if Inv() {
        ContainerFacts(nodes, kids, rank, bound, d);
        RootFacts(nodes, keyAt, slotOf, root);
        SlotsDiffer(nodes, keyAt, slotOf, nextKey, candidate, root);
      }
      r := AttachScreened(d, c, previous, next, constructed, at);
    }

    method AppendChild(destination: Key, candidate: Key) returns (r: Rejection)
      modifies `nodes, `kids, `rank, `bound, `bad
      ensures !r.Accepted? ==> nodes == old(nodes) && kids == old(kids)
      ensures old(Valid()) ==>
        && r == old(Verdict(destination, candidate)) && bad == old(bad) && Valid()
        && (r.Accepted? ==>
              LinkedUnder(old(nodes), old(kids), nodes, kids, SlotOf(destination), SlotOf(candidate), |old(Children(destination))|))
    {
      hide IsForest, PayloadsValid, RootValid, TablesValid, KeysValid, LinkedUnder, Admission;
      var d := SlotOf(destination);
      var previous := NO_SLOT;
      if IsValue(nodes, d) && IsContainer(nodes[d].payload.vtype) && IsAggregate(nodes, nodes[d].owned) {
        previous := nodes[nodes[d].owned].last;
        if Inv() { LastFits(nodes, kids, rank, bound, d); }
      } else if Inv() && IsValue(nodes, d) && IsContainer(nodes[d].payload.vtype) {
        ContainerFacts(nodes, kids, rank, bound, d);
      }
      r := AttachChild(destination, candidate, previous, NO_SLOT, false, |KidsOf(nodes, kids, d)|);
    }

    /** The verdict on a detached value is the verdict on the tree. */
    lemma Admitted(parent: Key, key: Key)
      requires IsReady() && Inv() && parent != NO_KEY && parent in slotOf && key != NO_KEY && key in slotOf && key != root
      requires IsValue(nodes, slotOf[parent]) && IsContainer(nodes[slotOf[parent]].payload.vtype)
      requires IsValue(nodes, slotOf[key]) && Unattached(nodes[slotOf[key]])
      requires Admission(nodes, kids, slotOf[parent], slotOf[key]).Accepted?
      ensures Verdict(parent, key).Accepted? && SlotOf(parent) == slotOf[parent] && SlotOf(key) == slotOf[key]
    {
      hide Inv, Admission;
    }

    /** Attaches a freshly built child; the caller vouches for its name and for the absence of cycles. */
    method AppendConstructedChild(destination: Key, candidate: Key) returns (r: Rejection)
      modifies `nodes, `kids, `rank, `bound, `bad
      ensures !r.Accepted? ==> nodes == old(nodes) && kids == old(kids)
      ensures old(Valid()) && old(Verdict(destination, candidate)).Accepted? ==>
        && r.Accepted? && bad == old(bad) && Valid()
        && LinkedUnder(old(nodes), old(kids), nodes, kids, SlotOf(destination), SlotOf(candidate), |old(Children(destination))|)
    {
      hide IsForest, PayloadsValid, RootValid, TablesValid, KeysValid, LinkedUnder, Admission;
      var d := SlotOf(destination);
      var previous := NO_SLOT;
      if IsValue(nodes, d) && IsContainer(nodes[d].payload.vtype) && IsAggregate(nodes, nodes[d].owned) {
        previous := nodes[nodes[d].owned].last;
        if Inv() { LastFits(nodes, kids, rank, bound, d); }
      } else if Inv() && IsValue(nodes, d) && IsContainer(nodes[d].payload.vtype) {
        ContainerFacts(nodes, kids, rank, bound, d);
      }
      r := AttachChild(destination, candidate, previous, NO_SLOT, true, |KidsOf(nodes, kids, d)|);
    }

    /** `before` is a child of the destination, a first child elsewhere (or detached), or a
        later child elsewhere: the last case, alone, condemns the document. */
    method InsertChildBefore(destination: Key, candidate: Key, before: Key) returns (r: Rejection)
      modifies `nodes, `kids, `rank, `bound, `bad
      ensures !r.Accepted? ==> nodes == old(nodes) && kids == old(kids)
      ensures old(IsReady() && Inv()) && !old(Contains(before)) ==> r == InsertBeforeNotChild && !bad && Valid()
      ensures old(IsReady() && Inv()) && old(Contains(before)) && !old(Screened(destination, candidate)).Accepted? ==>
        r == old(Screened(destination, candidate)) && !bad && Valid()
      ensures old(IsReady() && Inv() && Contains(before) && Screened(destination, candidate).Accepted?) ==>
        if old(nodes[SlotOf(before)].parent == nodes[SlotOf(destination)].owned) then
          && r == old(Verdict(destination, candidate)) && !bad && Valid()
          && (r.Accepted? ==> exists at: nat ::
                && At(old(Children(destination)), at) == SlotOf(before)
                && LinkedUnder(old(nodes), old(kids), nodes, kids, SlotOf(destination), SlotOf(candidate), at))
        else
          && (bad <==> old(nodes[SlotOf(before)].prev) != NO_SLOT)
          && r == (if bad then CorruptStructure else InsertBeforeNotChild) && Valid()
    {
      hide IsForest, PayloadsValid, RootValid, TablesValid, KeysValid, LinkedUnder, Admission;
      var b := SlotOf(before);
      if !IsValue(nodes, b) { return InsertBeforeNotChild; }
      ghost var at: nat := 0;
      if IsReady() && Inv() && Screened(destination, candidate).Accepted? {
        at := BeforeFits(nodes, kids, rank, bound, SlotOf(destination), b);
      }
      r := AttachChild(destination, candidate, nodes[b].prev, b, false, at);
    }

    method InsertChildAt(destination: Key, candidate: Key, index: nat) returns (r: Rejection)
      modifies `nodes, `kids, `rank, `bound, `bad
      ensures !r.Accepted? ==> nodes == old(nodes) && kids == old(kids)
      ensures old(IsReady() && Inv()) ==>
        && !bad && Valid()
        && r == (if !old(Contains(destination)) then DestinationNotFound
                 else if !IsContainer(old(nodes[SlotOf(destination)]).payload.vtype) then DestinationNotContainer
                 else if index > |old(Children(destination))| then IndexOutOfRange
                 else old(Verdict(destination, candidate)))
        && (r.Accepted? ==> LinkedUnder(old(nodes), old(kids), nodes, kids, SlotOf(destination), SlotOf(candidate), index))
    {
      hide IsForest, PayloadsValid, RootValid, TablesValid, KeysValid, LinkedUnder, Admission;
      ghost var good := IsReady() && Inv();
      var d := SlotOf(destination);
      if !IsValue(nodes, d) { return if IsReady() then DestinationNotFound else DocumentNotReady; }
      if good && IsContainer(nodes[d].payload.vtype) { LastFits(nodes, kids, rank, bound, d); }
      if !IsContainer(nodes[d].payload.vtype) { return DestinationNotContainer; }
      if !IsAggregate(nodes, nodes[d].owned) {
        bad := true;
        return CorruptStructure;
      }
      var a := nodes[d].owned;
      if index > nodes[a].count { return IndexOutOfRange; }
      if index == nodes[a].count {
        r := AppendChild(destination, candidate);
        return;
      }
      var before := nodes[a].first;
      var ordinal := 0;
      while ordinal < index
        invariant ordinal <= index
        invariant good ==> before == At(kids[a], ordinal)
        modifies {}
      {
        if good { KidFacts(nodes, kids, rank, bound, d, ordinal); }
        if !IsValue(nodes, before) { break; }
        before := nodes[before].next;
        ordinal := ordinal + 1;
      }
      if good { KidFacts(nodes, kids, rank, bound, d, ordinal); }
      if ordinal < index || before < 0 {
        bad := true;
        return CorruptStructure;
      }
      r := AttachChild(destination, candidate, if IsValue(nodes, before) then nodes[before].prev else NO_SLOT, before, false, index);
    }

    // -------------------------------------------------------------------
    // Detachment

    method DetachValue(v: Slot) returns (ok: bool)
      modifies `nodes, `kids, `bad
      ensures !ok ==> nodes == old(nodes) && kids == old(kids)
      ensures old(Inv()) ==>
        && bad == old(bad) && Inv()
        && (ok <==> old(IsValue(nodes, v) && v != SlotOf(root) && nodes[v].parent != NO_SLOT))
        && (ok ==> LinkedOutOf(old(nodes), old(kids), nodes, kids, v))
    {
      hide IsForest, PayloadsValid, RootValid, TablesValid, KeysValid, LinkedOutOf, Linked;
      if !IsValue(nodes, v) || KeyOf(v) == root || nodes[v].parent < 0 {
        if Inv() && IsValue(nodes, v) { SlotFacts(nodes, kids, rank, bound, v); RootKeyFacts(nodes, keyAt, slotOf, nextKey, root, v); }
        return false;
      }
      var a, p, n := nodes[v].parent, nodes[v].prev, nodes[v].next;
      ghost var i: nat := 0;
      if Inv() {
        RootKeyFacts(nodes, keyAt, slotOf, nextKey, root, v);
        i := DetachFacts(nodes, kids, rank, bound, v);
      }
      if a !in nodes || !AggregateValid(nodes[a]) || nodes[a].count == 0 { bad := true; return false; }
      if p >= 0 {
        if !IsValue(nodes, p) || !IsPreviousOf(nodes[p], nodes[v], p, v) { bad := true; return false; }
      } else if !HasFirst(nodes[a], nodes[v], a, v) { bad := true; return false; }
      if n >= 0 {
        if !IsValue(nodes, n) || !IsPreviousOf(nodes[v], nodes[n], v, n) { bad := true; return false; }
      } else if !HasLast(nodes[a], nodes[v], a, v) { bad := true; return false; }

      if Inv() {
        DetachForest(nodes, kids, rank, bound, |names|, |strings|, keyAt, slotOf, nextKey, root, v, i);
        kids := kids[a := RemoveAt(kids[a], i)];
      }
      LinkChildOut(v);
      return true;
    }

    /** The link writes of a detachment. */
    method LinkChildOut(v: Slot)
      requires IsValue(nodes, v) && IsAggregate(nodes, nodes[v].parent) && nodes[nodes[v].parent].count > 0
      requires nodes[v].prev >= 0 ==> IsValue(nodes, nodes[v].prev)
      requires nodes[v].next >= 0 ==> IsValue(nodes, nodes[v].next)
      modifies `nodes
      ensures nodes == LinkOut(old(nodes), v)
    {
      var a, p, n := nodes[v].parent, nodes[v].prev, nodes[v].next;
      if p >= 0 { nodes := nodes[p := nodes[p].(next := n)]; }
      else { nodes := nodes[a := nodes[a].(first := n)]; }
      if n >= 0 { nodes := nodes[n := nodes[n].(prev := p)]; }
      else { nodes := nodes[a := nodes[a].(last := p)]; }
      nodes := nodes[a := nodes[a].(count := nodes[a].count - 1)];
      nodes := nodes[v := nodes[v].(parent := NO_SLOT, prev := NO_SLOT, next := NO_SLOT)];
    }

    method Detach(value: Key) returns (ok: bool)
      modifies `nodes, `kids, `bad
      ensures !ok ==> nodes == old(nodes) && kids == old(kids)
      ensures old(Valid()) ==>
        && bad == old(bad) && Valid()
        && (ok <==> old(IsReady() && value != root && Contains(value) && nodes[SlotOf(value)].parent != NO_SLOT))
        && (ok ==> LinkedOutOf(old(nodes), old(kids), nodes, kids, SlotOf(value)))
    {
      hide IsForest, PayloadsValid, RootValid, TablesValid, KeysValid, LinkedOutOf;
      if !IsReady() || value == root { return false; }
      if Inv() {
        SlotFacts(nodes, kids, rank, bound, SlotOf(value));
        RootFacts(nodes, keyAt, slotOf, root);
        if Contains(value) { SlotsDiffer(nodes, keyAt, slotOf, nextKey, value, root); }
      }
      ok := DetachValue(SlotOf(value));
    }

    // -------------------------------------------------------------------
    // Records and keys

    /** Keys are issued in order and never again; zero marks the end of the supply. */
    method AllocateKey() returns (key: Key)
      modifies `nextKey
      ensures key == old(nextKey)
      ensures nextKey == if key == NO_KEY || key == 0xffff_ffff_ffff_ffff then NO_KEY else key + 1
    {
      key := nextKey;
      if nextKey != NO_KEY {
        nextKey := if nextKey == 0xffff_ffff_ffff_ffff then NO_KEY else nextKey + 1;
      }
    }

    /** Stores a record under a new key in some free slot, or fails and changes nothing. */
    method InsertRecord(key: Key, node: Node) returns (s: Slot)
      modifies `nodes, `keyAt, `slotOf
      ensures s == NO_SLOT ==> nodes == old(nodes) && keyAt == old(keyAt) && slotOf == old(slotOf)
      ensures s != NO_SLOT ==>
        && 0 <= s < SLOT_LIMIT && s !in old(nodes)
        && nodes == old(nodes)[s := node] && keyAt == old(keyAt)[s := key] && slotOf == old(slotOf)[key := s]
      ensures granted && |old(nodes)| < SLOT_LIMIT ==> s != NO_SLOT
    {
      s := *;
      if granted && |nodes| < SLOT_LIMIT {
        var free := FreeSlot(nodes.Keys, SLOT_LIMIT);
        s :| 0 <= s < SLOT_LIMIT && s !in nodes;
      }
      if s < 0 || s >= SLOT_LIMIT || s in nodes { return NO_SLOT; }
      nodes := nodes[s := node];
      keyAt := keyAt[s := key];
      slotOf := slotOf[key := s];
    }

    /** Fewer records than slots leave a slot free. */
    lemma {:induction false} FreeSlot(used: set<Slot>, limit: nat) returns (s: Slot)
      requires |used| < limit
      ensures 0 <= s < limit && s !in used
      decreases limit
    {
      s := limit - 1;
      if s in used { s := FreeSlot(used - {s}, limit - 1); }
    }

    method EraseRecord(s: Slot) returns (ok: bool)
      modifies `nodes, `keyAt, `slotOf
      ensures ok == (s in old(nodes))
      ensures !ok ==> nodes == old(nodes) && keyAt == old(keyAt) && slotOf == old(slotOf)
      ensures ok ==> nodes == old(nodes) - {s} && keyAt == old(keyAt) - {s} && slotOf == old(slotOf - {KeyOf(s)})
    {
      if s !in nodes { return false; }
      slotOf := slotOf - {KeyOf(s)};
      nodes := nodes - {s};
      keyAt := keyAt - {s};
      return true;
    }

    ghost predicate Unchanged(old_: Nodes, oldKids: Kids, oldKeyAt: map<Slot, Key>, oldSlotOf: map<Key, Slot>)
      reads this
    {
      nodes == old_ && kids == oldKids && keyAt == oldKeyAt && slotOf == oldSlotOf
    }

    /** A new detached value of key `k`: scalar, or an empty container with its aggregate. */
    ghost predicate Created(old_: Nodes, oldKids: Kids, oldKeyAt: map<Slot, Key>, oldSlotOf: map<Key, Slot>,
                            k: Key, payload: Payload, name: nat, named: bool)
      reads this
    {
      && k in slotOf && k !in oldSlotOf && slotOf[k] !in old_ && k != NO_KEY
      && (if IsContainer(payload.vtype) then
            exists a: Slot :: a !in old_ && a != slotOf[k] && a in keyAt
              && nodes == InsertPair(old_, slotOf[k], a, payload, name, named) && kids == oldKids[a := []]
              && keyAt == oldKeyAt[slotOf[k] := k][a := keyAt[a]] && keyAt[a] !in oldSlotOf && keyAt[a] != k
              && slotOf == oldSlotOf[k := slotOf[k]][keyAt[a] := a]
          else
            && nodes == old_[slotOf[k] := NewValue(payload, NO_SLOT, name, named)] && kids == oldKids
            && keyAt == oldKeyAt[slotOf[k] := k] && slotOf == oldSlotOf[k := slotOf[k]])
    }

    /** What a created value looks like, and that all else is as it was. */
    lemma CreatedFacts(f: Traversal.Shape, keyAt0: map<Slot, Key>, slotOf0: map<Key, Slot>, k: Key, payload: Payload, name: nat, named: bool)
      requires Created(f.nodes, f.kids, keyAt0, slotOf0, k, payload, name, named)
      requires keyAt0.Keys == f.nodes.Keys && forall b :: b in f.kids ==> b in f.nodes
      ensures k in slotOf && k != NO_KEY && k !in slotOf0
      ensures var s := slotOf[k];
        && s !in f.nodes && IsValue(nodes, s) && Unattached(nodes[s]) && KidsOf(nodes, kids, s) == []
        && nodes[s].payload == payload && nodes[s].name == name && nodes[s].named == named
      ensures Grown(f, keyAt0, slotOf0) && forall x :: IsValue(nodes, x) ==> x in f.nodes || x == slotOf[k]
    {
      hide Grows, InsertPair;
      if IsContainer(payload.vtype) {
        var a :| a !in f.nodes && a != slotOf[k] && a in keyAt
          && nodes == InsertPair(f.nodes, slotOf[k], a, payload, name, named) && kids == f.kids[a := []]
          && keyAt == keyAt0[slotOf[k] := k][a := keyAt[a]] && keyAt[a] !in slotOf0 && keyAt[a] != k
          && slotOf == slotOf0[k := slotOf[k]][keyAt[a] := a];
        PairGrows(f, Shape(), keyAt0, keyAt, slotOf0, slotOf, slotOf[k], a, k, keyAt[a], payload, name, named);
      } else {
        LeafGrows(f, Shape(), keyAt0, keyAt, slotOf0, slotOf, slotOf[k], k, payload, name, named);
      }
    }

    /** Every key in use was in use before, or was issued since. */
    ghost predicate KeysAdvance(oldSlotOf: map<Key, Slot>, oldNext: Key)
      reads this
    {
      Advances(oldSlotOf, oldNext, slotOf, nextKey)
    }

    /** How many records a value takes: a container has one more for its children. */
    function Cost(payload: Payload): nat {
      if IsContainer(payload.vtype) then 2 else 1
    }

    /** How many more records can be made. */
    ghost function Spare(): int
      reads this
    {
      SpareOf(granted, |nodes|, nextKey)
    }

    method CreateValue(payload: Payload, name: nat, named: bool) returns (key: Key)
      modifies `nodes, `keyAt, `slotOf, `nextKey, `kids, `rank, `bound
      ensures old(Inv() && PayloadValid(payload, |strings|) && NameValid(name, named, |names|)) ==>
        && Inv() && KeysAdvance(old(slotOf), old(nextKey))
        && (key == NO_KEY ==> Unchanged(old(nodes), old(kids), old(keyAt), old(slotOf)))
        && (key != NO_KEY ==> key == old(nextKey) && Created(old(nodes), old(kids), old(keyAt), old(slotOf), key, payload, name, named))
      ensures old(IsReady() && Inv() && Spare() >= Cost(payload) && PayloadValid(payload, |strings|) && NameValid(name, named, |names|)) ==>
        key != NO_KEY && Spare() >= old(Spare()) - Cost(payload)
    {
      key := NO_KEY;
      ghost var good := Inv() && PayloadValid(payload, |strings|) && NameValid(name, named, |names|);
      hide IsForest, PayloadsValid, RootValid, TablesValid, KeysValid, PayloadValid, NameValid, Advances, Created, SpareOf, Unchanged;
      if Spare() >= Cost(payload) { SpareMeans(granted, |nodes|, nextKey, Cost(payload)); }
      if good {
        AdvancesSame(slotOf, nextKey);
        IssueFacts(nodes, keyAt, slotOf, nextKey);
      }
      if bad || root == NO_KEY || name > |names| || (payload.vtype.Text? && payload.bits > |strings|) { return; }
      var valueKey := AllocateKey();
      var aggregateKey := NO_KEY;
      if valueKey != NO_KEY && IsContainer(payload.vtype) { aggregateKey := AllocateKey(); }
      if valueKey == NO_KEY || (IsContainer(payload.vtype) && aggregateKey == NO_KEY) { return; }
      if IsContainer(payload.vtype) {
        key := StorePair(valueKey, aggregateKey, payload, name, named, good);
      } else {
        key := StoreLeaf(valueKey, payload, name, named, good);
      }
      if old(Spare()) >= Cost(payload) { SpareSpent(granted, |old(nodes)|, old(nextKey), |nodes|, nextKey, Cost(payload)); }
    }

    /** The state just before a record of key `k` is stored: all is well but for the key counter. */
    ghost predicate Issued(k: Key, payload: Payload, name: nat, named: bool)
      reads this
    {
      && KeysValid(nodes, keyAt, slotOf, k) && k != NO_KEY
      && IsForest(nodes, kids, rank, bound) && PayloadsValid(nodes, |names|, |strings|)
      && TablesValid(breaks, names, strings) && RootValid(nodes, keyAt, slotOf, root)
      && PayloadValid(payload, |strings|) && NameValid(name, named, |names|)
    }

    method StoreLeaf(k: Key, payload: Payload, name: nat, named: bool, ghost good: bool) returns (key: Key)
      requires !IsContainer(payload.vtype)
      requires good ==> Issued(k, payload, name, named) && nextKey == NextKey(k)
      modifies `nodes, `keyAt, `slotOf, `rank, `bound
      ensures good ==>
        && Inv() && Advances(old(slotOf), k, slotOf, nextKey)
        && (key == NO_KEY ==> Unchanged(old(nodes), old(kids), old(keyAt), old(slotOf)))
        && (key != NO_KEY ==> key == k && Created(old(nodes), old(kids), old(keyAt), old(slotOf), k, payload, name, named))
      ensures granted && |old(nodes)| < SLOT_LIMIT && k != NO_KEY ==> key != NO_KEY && |nodes| <= |old(nodes)| + 1
    {
      hide IsForest, PayloadsValid, RootValid, TablesValid, KeysValid, PayloadValid, NameValid, Advances;
      if good { IssueFacts(nodes, keyAt, slotOf, k); }
      var s := InsertRecord(k, NewValue(payload, NO_SLOT, name, named));
      if s == NO_SLOT { return NO_KEY; }
      if good {
        LeafDocument(old(nodes), kids, rank, bound, |names|, |strings|, old(keyAt), old(slotOf), k, root, s, payload, name, named);
        rank, bound := rank[s := 0], bound + 1;
      }
      return k;
    }

    /** Stores a container value and then its aggregate; when the second fails the first is taken back. */
    method InsertRecords(k: Key, k': Key, payload: Payload, name: nat, named: bool) returns (s: Slot, a: Slot)
      requires IsContainer(payload.vtype)
      modifies `nodes, `keyAt, `slotOf
      ensures a == NO_SLOT && old(keyAt.Keys == nodes.Keys && k !in slotOf) ==>
        nodes == old(nodes) && keyAt == old(keyAt) && slotOf == old(slotOf)
      ensures a != NO_SLOT ==>
        && s >= 0 && a >= 0 && s != a && s !in old(nodes) && a !in old(nodes)
        && nodes == InsertPair(old(nodes), s, a, payload, name, named)
        && keyAt == old(keyAt)[s := k][a := k'] && slotOf == old(slotOf)[k := s][k' := a]
      ensures granted && |old(nodes)| + 2 <= SLOT_LIMIT ==> a != NO_SLOT && |nodes| <= |old(nodes)| + 2
    {
      hide IsContainer, InsertPair, NewValue, NewAggregate;
      s, a := NO_SLOT, NO_SLOT;
      s := InsertRecord(k, NewValue(payload, NO_SLOT, name, named));
      if s == NO_SLOT { return; }
      a := InsertRecord(k', NewAggregate(s, KindOf(payload.vtype)));
      if a == NO_SLOT {
        var erased := EraseRecord(s);
        return;
      }
      PairWritten(old(nodes), s, a, payload, name, named);
      PairSize(old(nodes), s, a, payload, name, named);
      nodes := nodes[s := nodes[s].(owned := a)];
    }

    method StorePair(k: Key, k': Key, payload: Payload, name: nat, named: bool, ghost good: bool) returns (key: Key)
      requires IsContainer(payload.vtype)
      requires good ==> Issued(k, payload, name, named) && k' == NextKey(k) && k' != NO_KEY && nextKey == NextKey(k')
      modifies `nodes, `keyAt, `slotOf, `kids, `rank, `bound
      ensures good ==>
        && Inv() && Advances(old(slotOf), k, slotOf, nextKey)
        && (key == NO_KEY ==> Unchanged(old(nodes), old(kids), old(keyAt), old(slotOf)))
        && (key != NO_KEY ==> key == k && Created(old(nodes), old(kids), old(keyAt), old(slotOf), k, payload, name, named))
      ensures granted && |old(nodes)| + 2 <= SLOT_LIMIT && k != NO_KEY ==> key != NO_KEY && |nodes| <= |old(nodes)| + 2
    {
      hide IsForest, PayloadsValid, RootValid, TablesValid, KeysValid, PayloadValid, NameValid, Advances, InsertPair, Created, NextKey, IsValue;
      if good { IssueFacts(nodes, keyAt, slotOf, k); }
      var s, a := InsertRecords(k, k', payload, name, named);
      if a == NO_SLOT { return NO_KEY; }
      if good {
        CommitPair(old(nodes), old(keyAt), old(slotOf), s, a, k, k', payload, name, named);
      }
      return k;
    }

    /** The ghost state of a stored pair. */
    ghost method CommitPair(nodes0: Nodes, keyAt0: map<Slot, Key>, slotOf0: map<Key, Slot>,
                            s: Slot, a: Slot, k: Key, k': Key, payload: Payload, name: nat, named: bool)
      requires IsContainer(payload.vtype) && s >= 0 && a >= 0 && s != a && s !in nodes0 && a !in nodes0
      requires IsForest(nodes0, kids, rank, bound) && PayloadsValid(nodes0, |names|, |strings|) && TablesValid(breaks, names, strings)
      requires RootValid(nodes0, keyAt0, slotOf0, root) && KeysValid(nodes0, keyAt0, slotOf0, k)
      requires PayloadValid(payload, |strings|) && NameValid(name, named, |names|)
      requires k != NO_KEY && k' == NextKey(k) && k' != NO_KEY && nextKey == NextKey(k')
      requires nodes == InsertPair(nodes0, s, a, payload, name, named)
      requires keyAt == keyAt0[s := k][a := k'] && slotOf == slotOf0[k := s][k' := a]
      modifies `kids, `rank, `bound
      ensures Inv() && Advances(slotOf0, k, slotOf, nextKey) && Created(nodes0, old(kids), keyAt0, slotOf0, k, payload, name, named)
    {
      ghost var kids0 := kids;
      NextDiffers(k);
      hide IsForest, PayloadsValid, RootValid, TablesValid, KeysValid, PayloadValid, NameValid, Advances, InsertPair, Created, NextKey, Inv;
      IssueFacts(nodes0, keyAt0, slotOf0, k);
      PairDocument(nodes0, kids, rank, bound, |names|, |strings|, keyAt0, slotOf0, k, root, s, a, payload, name, named);
      kids, rank, bound := kids[a := []], rank[s := 0], bound + 1;
      Holds();
      PairCreated(nodes0, kids0, keyAt0, slotOf0, s, a, k, k', payload, name, named);
    }

    lemma Holds()
      requires KeysValid(nodes, keyAt, slotOf, nextKey) && IsForest(nodes, kids, rank, bound) && PayloadsValid(nodes, |names|, |strings|)
      requires TablesValid(breaks, names, strings) && RootValid(nodes, keyAt, slotOf, root)
      ensures Inv()
    {
      hide IsForest, PayloadsValid, RootValid, TablesValid, KeysValid;
    }

    lemma NextDiffers(k: Key)
      requires k != NO_KEY
      ensures NextKey(k) != k
    {
    }

    lemma PairCreated(old_: Nodes, oldKids: Kids, oldKeyAt: map<Slot, Key>, oldSlotOf: map<Key, Slot>,
                      s: Slot, a: Slot, k: Key, k': Key, payload: Payload, name: nat, named: bool)
      requires IsContainer(payload.vtype) && s != a && s !in old_ && a !in old_ && k != NO_KEY && k != k' && k !in oldSlotOf && k' !in oldSlotOf
      requires nodes == InsertPair(old_, s, a, payload, name, named) && kids == oldKids[a := []]
      requires keyAt == oldKeyAt[s := k][a := k'] && slotOf == oldSlotOf[k := s][k' := a]
      ensures Created(old_, oldKids, oldKeyAt, oldSlotOf, k, payload, name, named)
    {
      assert a in keyAt && keyAt[a] == k' && slotOf[k] == s;
    }

    // -------------------------------------------------------------------
    // Payload transfer

    /** Moves the payload of `source`, with its descendants, into the empty value `target`. */
    method MoveValuePayload(target: Slot, source: Slot) returns (ok: bool)
      modifies `nodes, `rank, `bound, `bad
      ensures old(Inv() && CanMove(nodes, kids, target, source) && !Under(nodes, target, source)) ==>
        && ok && bad == old(bad) && nodes == MoveNodes(old(nodes), target, source)
        && (source != SlotOf(root) ==> Inv())
    {
      ghost var good := Inv() && CanMove(nodes, kids, target, source) && !Under(nodes, target, source);
      hide IsForest, Linked, PayloadsValid, RootValid, TablesValid, KeysValid, MoveNodes;
      if good {
        MoveFacts(nodes, kids, rank, bound, |names|, |strings|, target, source);
        MoveDocument(nodes, kids, rank, bound, |names|, |strings|, keyAt, slotOf, nextKey, root, target, source);
        RootFacts(nodes, keyAt, slotOf, root);
      }
      if !IsValue(nodes, target) || !IsValue(nodes, source) || target == source
         || !nodes[target].payload.vtype.EmptyValue? || nodes[source].payload.vtype.EmptyValue?
         || !PayloadValid(nodes[target].payload, |strings|) || !PayloadValid(nodes[source].payload, |strings|) {
        bad := true;
        return false;
      }
      var a := nodes[source].owned;
      if IsContainer(nodes[source].payload.vtype)
         && (a !in nodes || !AggregateValid(nodes[a]) || !FormsPair(nodes[source], nodes[a], source, a)) {
        bad := true;
        return false;
      }
      if good {
        rank, bound := Lift(nodes, rank, source, rank[target] + 1), bound + rank[target] + 1;
      }
      WritePayload(target, source);
      return true;
    }

    /** The record writes of a payload transfer. */
    method WritePayload(target: Slot, source: Slot)
      requires IsValue(nodes, target) && IsValue(nodes, source) && target != source
      modifies `nodes
      ensures nodes == MoveNodes(old(nodes), target, source)
    {
      var a := nodes[source].owned;
      nodes := nodes[target := nodes[target].(payload := nodes[source].payload, owned := a)];
      nodes := nodes[source := nodes[source].(payload := EMPTY_PAYLOAD, owned := NO_SLOT)];
      if IsAggregate(nodes, a) { nodes := nodes[a := nodes[a].(owner := target)]; }
    }

    /** Gives the payload of `source` to a new anonymous detached value, leaving `source` empty in place. */
    method DetachPayload(source: Key) returns (key: Key)
      modifies `nodes, `keyAt, `slotOf, `nextKey, `rank, `bound, `bad
      ensures old(Valid()) ==>
        && Valid() && bad == old(bad) && KeysAdvance(old(slotOf), old(nextKey))
        && (key == NO_KEY ==> Unchanged(old(nodes), old(kids), old(keyAt), old(slotOf)))
        && (key != NO_KEY ==>
              && old(IsReady() && source != root && Contains(source) && !nodes[SlotOf(source)].payload.vtype.EmptyValue?)
              && key == old(nextKey) && key in slotOf && slotOf[key] !in old(nodes)
              && nodes == MoveNodes(old(nodes)[slotOf[key] := NewValue(EMPTY_PAYLOAD, NO_SLOT, 0, false)], slotOf[key], old(SlotOf(source)))
              && keyAt == old(keyAt)[slotOf[key] := key] && slotOf == old(slotOf)[key := slotOf[key]])
      ensures old(Valid() && IsReady() && Spare() >= 1 && source != root && Contains(source) && !nodes[SlotOf(source)].payload.vtype.EmptyValue?) ==>
        key != NO_KEY
    {
      key := NO_KEY;
      ghost var good := IsReady() && Inv();
      hide IsForest, Linked, PayloadsValid, RootValid, TablesValid, KeysValid, Advances, MoveNodes;
      AdvancesSame(slotOf, nextKey);
      if !IsReady() || source == root { return; }
      var s := SlotOf(source);
      if !IsValue(nodes, s) || nodes[s].payload.vtype.EmptyValue? { return; }
      if good {
        PayloadPairFacts(nodes, kids, rank, bound, s);
        IssueFacts(nodes, keyAt, slotOf, nextKey);
        RootFacts(nodes, keyAt, slotOf, root);
        SlotsDiffer(nodes, keyAt, slotOf, nextKey, source, root);
      }
      var a := nodes[s].owned;
      if (a >= 0) != IsContainer(nodes[s].payload.vtype)
         || (IsContainer(nodes[s].payload.vtype) && (a !in nodes || !FormsPair(nodes[s], nodes[a], s, a))) {
        bad := true;
        return;
      }
      var issued := AllocateKey();
      if issued == NO_KEY { return; }
      var created := StoreLeaf(issued, EMPTY_PAYLOAD, 0, false, good);
      if created == NO_KEY { return; }
      if good { FreshTarget(old(nodes), kids, old(rank), old(bound), slotOf[issued], s, nodes, rank, bound); }
      var moved := MoveValuePayload(SlotOf(issued), s);
      if !moved {
        var erased := EraseRecord(SlotOf(issued));
        return;
      }
      return issued;
    }

    /** When a payload can be transferred: an empty target outside the subtree of an
        unattached anonymous source. The root meets the conditions on the source. */
    ghost predicate Transferable(target: Key, source: Key)
      reads this
    {
      && Contains(target) && nodes[SlotOf(target)].payload.vtype.EmptyValue? && target != source
      && Contains(source) && !nodes[SlotOf(source)].payload.vtype.EmptyValue?
      && Unattached(nodes[SlotOf(source)]) && !nodes[SlotOf(source)].named
      && !Under(nodes, SlotOf(target), SlotOf(source))
    }

    /** Moves the payload of an anonymous unattached value into an empty one and erases the shell.
        Nothing here looks for the root: consuming it is the one way to leave a document that is
        no longer well formed. */
    method AttachPayload(target: Key, source: Key) returns (key: Key)
      modifies `nodes, `keyAt, `slotOf, `rank, `bound, `bad
      ensures old(Valid()) ==>
        && bad == old(bad)
        && key == (if old(IsReady() && Transferable(target, source)) then target else NO_KEY)
        && (key == NO_KEY ==> Unchanged(old(nodes), old(kids), old(keyAt), old(slotOf)))
        && (key != NO_KEY ==>
              && old(Contains(target) && Contains(source) && target != source && SlotOf(target) != SlotOf(source))
              && nodes == MoveNodes(old(nodes), old(SlotOf(target)), old(SlotOf(source))) - {old(SlotOf(source))}
              && keyAt == old(keyAt) - {old(SlotOf(source))} && slotOf == old(slotOf) - {source})
        && (Valid() <==> key == NO_KEY || source != root)
    {
      hide Unattached, IsAggregate;
      key := NO_KEY;
      ghost var good := IsReady() && Inv();
      hide IsForest, Linked, PayloadsValid, RootValid, TablesValid, KeysValid, MoveNodes;
      if !IsReady() { return; }
      var t, s := SlotOf(target), SlotOf(source);
      if !IsValue(nodes, t) || !nodes[t].payload.vtype.EmptyValue? || target == source { return; }
      if !IsValue(nodes, s) || nodes[s].payload.vtype.EmptyValue? || !Unattached(nodes[s]) || nodes[s].named { return; }
      if good {
        PayloadPairFacts(nodes, kids, rank, bound, s);
        RootFacts(nodes, keyAt, slotOf, root);
        SlotsDiffer(nodes, keyAt, slotOf, nextKey, target, source);
        if source != root { SlotsDiffer(nodes, keyAt, slotOf, nextKey, source, root); }
        ShellFacts(nodes, kids, rank, bound, keyAt, slotOf, nextKey, source, t, s);
      }
      if IsContainer(nodes[s].payload.vtype) && (nodes[s].owned !in nodes || !FormsPair(nodes[s], nodes[nodes[s].owned], s, nodes[s].owned)) {
        bad := true;
        return;
      }
      var ok, cycle := QueryAncestry(t, s);
      if !ok || cycle { return; }
      ok := MoveValuePayload(t, s);
      if !ok { return; }
      if good && source != root {
        ShellErased(nodes, kids, rank, bound, |names|, |strings|, keyAt, slotOf, nextKey, root, s);
      }
      ok := EraseRecord(s);
      if !ok {
        bad := true;
        return;
      }
      if good { RootNeeded(nodes, keyAt, slotOf, root); }
      return target;
    }

    // -------------------------------------------------------------------
    // Erasure

    /** The value a postorder walk of `v` starts with. */
    method SubtreeFirstPostorder(v: Slot, ghost f: Traversal.Shape) returns (first: Slot)
      modifies `bad
      ensures old(bad) ==> bad
      ensures Wf(f) && IsValue(f.nodes, v) && AllLive(f, nodes, Walk(f, Post, v)) ==> bad == old(bad) && first == Deepest(f, v)
    {
      ghost var good := Wf(f) && IsValue(f.nodes, v) && AllLive(f, nodes, Walk(f, Post, v));
      ghost var seen: set<Slot> := {};
      hide Wf;
      first := v;
      var descent := 0;
      while descent <= |nodes|
        invariant bad == old(bad)
        invariant good ==> IsValue(f.nodes, first) && Deepest(f, first) == Deepest(f, v)
        invariant good ==> AllLive(f, nodes, Walk(f, Post, first))
        invariant good ==> descent == |seen| && seen <= nodes.Keys
        invariant good ==> forall x :: x in seen ==> IsValue(f.nodes, x) && x in f.rank && first in f.rank && f.rank[x] < f.rank[first]
      {
        if good { DescentFacts(f, nodes, first); }
        if !IsValue(nodes, first) {
          bad := true;
          return NO_SLOT;
        }
        if !IsContainer(nodes[first].payload.vtype) { return; }
        var a := nodes[first].owned;
        if a !in nodes {
          bad := true;
          return NO_SLOT;
        }
        var child := if nodes[a].Aggregate? then nodes[a].first else NO_SLOT;
        if child < 0 { return; }
        ghost var was := first;
        if good { seen := seen + {first}; }
        first := child;
        descent := descent + 1;
      }
      if good { SubsetSize(seen, nodes.Keys); }
      bad := true;
      return NO_SLOT;
    }

    /** The value a postorder walk of `top` visits after `current`, or -1 after `top` itself. */
    method SubtreeNextPostorder(top: Slot, current: Slot, ghost f: Traversal.Shape) returns (next: Slot)
      modifies `bad
      ensures old(bad) ==> bad
      ensures (Wf(f) && IsValue(f.nodes, current) && Under(f.nodes, current, top)
        && AllLive(f, nodes, [current] + Rest(f, Post, current, top))) ==>
        && bad == old(bad) && (next == NO_SLOT <==> current == top)
        && (current != top ==>
              && next >= 0 && IsValue(f.nodes, next) && Under(f.nodes, next, top)
              && [next] + Rest(f, Post, next, top) == Rest(f, Post, current, top))
    {
      if current == top { return NO_SLOT; }
      ghost var good := Wf(f) && IsValue(f.nodes, current) && Under(f.nodes, current, top)
        && AllLive(f, nodes, [current] + Rest(f, Post, current, top));
      hide Wf;
      if good { StepFacts(f, nodes, current, top); }
      if !IsValue(nodes, current) {
        bad := true;
        return NO_SLOT;
      }
      if nodes[current].next >= 0 {
        next := SubtreeFirstPostorder(nodes[current].next, f);
        return;
      }
      if nodes[current].parent !in nodes {
        bad := true;
        return NO_SLOT;
      }
      var a := nodes[current].parent;
      return if nodes[a].Aggregate? then nodes[a].owner else NO_SLOT;
    }

    /** What is left of `f` and of its keys once the values `gone` are erased. */
    ghost predicate Left(f: Traversal.Shape, keyAt0: map<Slot, Key>, slotOf0: map<Key, Slot>, gone: set<Slot>)
      reads this
    {
      && nodes == f.nodes - RecordsOf(f, gone) && keyAt == keyAt0 - RecordsOf(f, gone)
      && slotOf == SlotsWithout(slotOf0, RecordsOf(f, gone))
    }

    /** Erases a value record and, if it has one, its aggregate. */
    method EraseRecordPair(x: Slot, aggregate: Slot, ghost f: Traversal.Shape, ghost keyAt0: map<Slot, Key>, ghost slotOf0: map<Key, Slot>,
                           ghost gone: set<Slot>, ghost done: seq<Slot>, ghost good: bool)
      returns (ok: bool)
      requires x in nodes
      requires good ==>
        && Left(f, keyAt0, slotOf0, gone + Elems(done))
        && Erasable(f, nodes, keyAt0, slotOf0, RecordsOf(f, gone + Elems(done)), RecordsOf(f, gone + Elems(done + [x])), x)
        && aggregate == f.nodes[x].owned
      modifies `nodes, `keyAt, `slotOf
      ensures nodes.Keys <= old(nodes.Keys) && (ok ==> nodes.Keys < old(nodes.Keys))
      ensures good ==> ok && Left(f, keyAt0, slotOf0, gone + Elems(done + [x]))
    {
      hide RecordsOf, SlotsWithout;
      if aggregate >= 0 {
        ok := EraseRecord(aggregate);
        if !ok { return; }
      }
      ok := EraseRecord(x);
    }

    /** Erases `v`, its descendants and their aggregates, each as the postorder walk leaves it.
        `f` is the forest as it was before anything was erased, `gone` the values already erased. */
    method EraseSubtree(v: Slot, ghost f: Traversal.Shape, ghost keyAt0: map<Slot, Key>, ghost slotOf0: map<Key, Slot>, ghost next0: Key,
                        ghost gone: set<Slot>, ghost good: bool)
      returns (ok: bool)
      requires good ==>
        && !bad && Wf(f) && IsValue(f.nodes, v) && KeysValid(f.nodes, keyAt0, slotOf0, next0)
        && Left(f, keyAt0, slotOf0, gone) && forall x :: x in Walk(f, Post, v) ==> x !in gone
      modifies `nodes, `keyAt, `slotOf, `bad
      ensures good ==> ok && !bad && Left(f, keyAt0, slotOf0, gone + Elems(Walk(f, Post, v)))
      ensures nodes.Keys <= old(nodes.Keys) && (ok ==> nodes.Keys < old(nodes.Keys))
    {
      hide Wf, KeysValid, RecordsOf, SlotsWithout, Erasable, AllLive, Under, Elems;
      ghost var all: seq<Slot> := if good then Walk(f, Post, v) else [];
      if good { StartFacts(f, nodes, gone, v); }
      var current := SubtreeFirstPostorder(v, f);
      if current < 0 || bad { return false; }
      var limit := |nodes|;
      var erased := 0;
      ghost var done: seq<Slot> := [];
      while current >= 0
        invariant good ==> !bad && |done| == erased && limit == |f.nodes.Keys - RecordsOf(f, gone)|
        invariant good ==> Left(f, keyAt0, slotOf0, gone + Elems(done))
        invariant good && current >= 0 ==>
          IsValue(f.nodes, current) && Under(f.nodes, current, v) && all == done + ([current] + Rest(f, Post, current, v))
        invariant good && current < 0 ==> all == done
        invariant nodes.Keys <= old(nodes.Keys) && (erased != 0 ==> nodes.Keys < old(nodes.Keys))
        decreases nodes.Keys
      {
        var next;
        ok, next := EraseStep(v, current, f, keyAt0, slotOf0, next0, gone, done, good);
        if !ok { return false; }
        erased := erased + 1;
        if erased > limit { bad := true; return false; }
        done := done + [current];
        current := next;
      }
      return erased != 0;
    }

    /** One step of the erasing walk: finds what comes after `current`, then erases `current`. */
    method EraseStep(v: Slot, current: Slot, ghost f: Traversal.Shape, ghost keyAt0: map<Slot, Key>, ghost slotOf0: map<Key, Slot>,
                     ghost next0: Key, ghost gone: set<Slot>, ghost done: seq<Slot>, ghost good: bool)
      returns (ok: bool, next: Slot)
      requires good ==>
        && !bad && Wf(f) && IsValue(f.nodes, v) && KeysValid(f.nodes, keyAt0, slotOf0, next0)
        && Left(f, keyAt0, slotOf0, gone + Elems(done)) && (forall x :: x in Walk(f, Post, v) ==> x !in gone)
        && IsValue(f.nodes, current) && Under(f.nodes, current, v)
        && Walk(f, Post, v) == done + ([current] + Rest(f, Post, current, v))
      modifies `nodes, `keyAt, `slotOf, `bad
      ensures nodes.Keys <= old(nodes.Keys) && (ok ==> nodes.Keys < old(nodes.Keys))
      ensures good ==> ok && !bad && Left(f, keyAt0, slotOf0, gone + Elems(done + [current]))
      ensures good ==> |done + [current]| <= |f.nodes.Keys - RecordsOf(f, gone)|
      ensures good && next >= 0 ==>
        IsValue(f.nodes, next) && Under(f.nodes, next, v) && Walk(f, Post, v) == done + [current] + ([next] + Rest(f, Post, next, v))
      ensures good && next < 0 ==> Walk(f, Post, v) == done + [current]
    {
      hide Wf, KeysValid, RecordsOf, SlotsWithout, Erasable, AllLive, Under, Elems;
      if good {
        EraseFacts(f, nodes, gone, v, done, current, keyAt0, slotOf0, next0);
        DoneStep(done, current, Rest(f, Post, current, v));
      }
      ok, next := false, NO_SLOT;
      if !IsValue(nodes, current) { bad := true; return; }
      var aggregate := nodes[current].owned;
      next := SubtreeNextPostorder(v, current, f);
      if bad { return; }
      ok := EraseRecordPair(current, aggregate, f, keyAt0, slotOf0, gone, done, good);
      if !ok { bad := true; }
    }

    /** Everything strictly inside `d` is gone, `d` is an empty container, and every other
        record and key is as it was in `f`. */
    ghost predicate Hollowed(f: Traversal.Shape, keyAt0: map<Slot, Key>, slotOf0: map<Key, Slot>, d: Slot)
      reads this
    {
      && IsValue(f.nodes, d)
      && var dead := RecordsOf(f, Strictly(f, d));
      && nodes == Sever(f.nodes, dead, f.nodes[d].owned) && kids == SeverKids(f.kids, dead, f.nodes[d].owned)
      && keyAt == keyAt0 - dead && slotOf == SlotsWithout(slotOf0, dead)
    }

    /** Erases every child of aggregate `a`, then empties its list. */
    method EraseAggregateChildren(a: Slot, ghost good: bool) returns (ok: bool)
      requires good ==> !bad && Inv() && IsAggregate(nodes, a)
      modifies `nodes, `keyAt, `slotOf, `kids, `bad
      ensures good ==> ok && !bad && Inv() && Hollowed(old(Shape()), old(keyAt), old(slotOf), old(nodes[a].owner))
    {
      ghost var f := Shape();
      hide KeysValid, RecordsOf, SlotsWithout, IsForest, PayloadsValid, TablesValid, RootValid, Sever, SeverKids, Strictly;
      if good { AggregateFacts(f, a); }
      if a !in nodes || !AggregateValid(nodes[a]) {
        bad := true;
        return false;
      }
      ghost var d := nodes[a].owner;
      if good { ChildrenStart(f, keyAt, slotOf, nextKey, a); }
      var child := nodes[a].first;
      ghost var i := 0;
      while child >= 0
        invariant good ==> !bad && 0 <= i <= |f.kids[a]| && child == At(f.kids[a], i)
        invariant good ==> Left(f, old(keyAt), old(slotOf), Before(f, a, i))
        invariant kids == old(kids)
        decreases nodes.Keys
      {
        if good { ChildFacts(f, nodes, a, i); }
        if !IsValue(nodes, child) {
          bad := true;
          return false;
        }
        var next := nodes[child].next;
        ok := EraseSubtree(child, f, old(keyAt), old(slotOf), old(nextKey), if good then Before(f, a, i) else {}, good);
        if !ok { return false; }
        child := next;
        i := i + 1;
      }
      if good { ChildrenEnd(f, nodes, a, i); }
      if !IsAggregate(nodes, a) {
        bad := true;
        return false;
      }
      nodes := nodes[a := ClearedAggregate(nodes[a])];
      if good {
        var dead := RecordsOf(f, Strictly(f, d));
        SeverDocument(f, |names|, |strings|, old(keyAt), old(slotOf), nextKey, root, d, a);
        kids := SeverKids(kids, dead, a);
      }
      return true;
    }

    /** Empties the root container; the root pair stays. */
    method ClearRoot() returns (ok: bool)
      modifies `nodes, `keyAt, `slotOf, `kids, `bad
      ensures old(IsReady() && Inv()) ==> ok && !bad && Inv() && Hollowed(old(Shape()), old(keyAt), old(slotOf), old(SlotOf(root)))
    {
      ghost var good := IsReady() && Inv();
      hide KeysValid, RecordsOf, SlotsWithout, IsForest, PayloadsValid, TablesValid, RootValid, Sever, SeverKids, Strictly;
      if good { RootPairFacts(nodes, kids, rank, bound, keyAt, slotOf, root); }
      var r := SlotOf(root);
      if !IsValue(nodes, r) || nodes[r].owned !in nodes {
        bad := true;
        return false;
      }
      ok := EraseAggregateChildren(nodes[r].owned, good);
    }

    /** Erases a value's payload and descendants; the value stays, empty, in its place. */
    method ErasePayload(value: Key) returns (ok: bool)
      modifies `nodes, `keyAt, `slotOf, `kids, `bad
      ensures old(Valid()) ==>
        && bad == old(bad) && Valid() && (ok <==> old(IsReady() && Contains(value)))
        && (!ok ==> Unchanged(old(nodes), old(kids), old(keyAt), old(slotOf)))
        && (ok && value == root ==> Hollowed(old(Shape()), old(keyAt), old(slotOf), old(SlotOf(root))))
        && (ok && value != root ==> Emptied(old(Shape()), old(keyAt), old(slotOf), old(SlotOf(value))))
    {
      ghost var good := IsReady() && Inv();
      hide KeysValid, RecordsOf, SlotsWithout, IsForest, PayloadsValid, TablesValid, RootValid, Sever, SeverKids, Strictly, RecordsGone;
      if !IsReady() { return false; }
      if value == root {
        if good { RootPairFacts(nodes, kids, rank, bound, keyAt, slotOf, root); }
        ok := ClearRoot();
        return;
      }
      var v := SlotOf(value);
      if !IsValue(nodes, v) { return false; }
      ghost var f := Shape();
      if good {
        PayloadPairFacts(nodes, kids, rank, bound, v);
        PayloadFacts(nodes, |names|, |strings|, v);
        RootFacts(nodes, keyAt, slotOf, root);
        SlotsDiffer(nodes, keyAt, slotOf, nextKey, value, root);
        if IsContainer(nodes[v].payload.vtype) { AggregateFacts(f, nodes[v].owned); }
      }
      if !PayloadValid(nodes[v].payload, |strings|) { bad := true; return false; }
      if nodes[v].payload.vtype.EmptyValue? {
        if good { ScalarEmptied(f, |names|, |strings|, keyAt, slotOf, nextKey, root, v); }
        return true;
      }
      if IsContainer(nodes[v].payload.vtype) {
        if nodes[v].owned !in nodes || !AggregateValid(nodes[nodes[v].owned]) || !FormsPair(nodes[v], nodes[nodes[v].owned], v, nodes[v].owned) {
          bad := true;
          return false;
        }
        ok := EraseContainerPayload(v, nodes[v].owned, good);
        return;
      }
      if good { ScalarEmptied(f, |names|, |strings|, keyAt, slotOf, nextKey, root, v); }
      nodes := nodes[v := nodes[v].(payload := EMPTY_PAYLOAD, owned := NO_SLOT)];
      return true;
    }

    /** Erases the children of a container value and then its aggregate. */
    method EraseContainerPayload(v: Slot, a: Slot, ghost good: bool) returns (ok: bool)
      requires good ==> !bad && Inv() && IsAggregate(nodes, a) && nodes[a].owner == v && v != SlotOf(root)
      modifies `nodes, `keyAt, `slotOf, `kids, `bad
      ensures good ==> ok && !bad && Inv() && Emptied(old(Shape()), old(keyAt), old(slotOf), v)
    {
      ghost var f := Shape();
      hide KeysValid, RecordsOf, SlotsWithout, IsForest, PayloadsValid, TablesValid, RootValid, Sever, SeverKids, Strictly, RecordsGone;
      if good { RootFacts(nodes, keyAt, slotOf, root); AggregateFacts(f, a); }
      ok := EraseAggregateChildren(a, good);
      if !ok { bad := true; return false; }
      if good {
        RootFacts(nodes, keyAt, slotOf, root);
        SlotKept(old(slotOf), slotOf, RecordsOf(f, Strictly(f, v)), root);
        HollowFacts(f, old(keyAt), old(slotOf), nodes, kids, keyAt, slotOf, nextKey, v, a);
        DropPair(nodes, kids, rank, bound, |names|, |strings|, keyAt, slotOf, nextKey, root, v, a);
      }
      ok := EraseRecord(a);
      if !ok || !IsValue(nodes, v) { bad := true; return false; }
      nodes := nodes[v := nodes[v].(payload := EMPTY_PAYLOAD, owned := NO_SLOT)];
      if good { kids := kids - {a}; }
      return true;
    }

    /** The payload of `v` and everything inside it are gone; the rest is as it was in `f`. */
    ghost predicate Emptied(f: Traversal.Shape, keyAt0: map<Slot, Key>, slotOf0: map<Key, Slot>, v: Slot)
      reads this
    {
      RecordsGone(f, nodes, kids, keyAt0, keyAt, slotOf0, slotOf, v)
    }

    /** Erases a value with everything inside it; erasing the root empties it instead. */
    method Erase(value: Key) returns (ok: bool)
      modifies `nodes, `keyAt, `slotOf, `kids, `bad
      ensures old(Valid()) ==>
        && bad == old(bad) && Valid() && (ok <==> old(IsReady() && Contains(value)))
        && (!ok ==> Unchanged(old(nodes), old(kids), old(keyAt), old(slotOf)))
        && (ok && value == root ==> Hollowed(old(Shape()), old(keyAt), old(slotOf), old(SlotOf(root))))
        && (ok && value != root ==> Removed(old(Shape()), old(keyAt), old(slotOf), old(SlotOf(value))))
    {
      ghost var good := IsReady() && Inv();
      hide KeysValid, RecordsOf, SlotsWithout, IsForest, PayloadsValid, TablesValid, RootValid, Whole, Under, LinkedOutOf, Unlinked, UnlinkedKids;
      if !IsReady() { return false; }
      if good {
        RootFacts(nodes, keyAt, slotOf, root);
        RootPairFacts(nodes, kids, rank, bound, keyAt, slotOf, root);
        SlotFacts(nodes, kids, rank, bound, SlotOf(value));
      }
      if value == root {
        ok := ClearRoot();
        return;
      }
      var v := SlotOf(value);
      if !IsValue(nodes, v) { return false; }
      if good { SlotsDiffer(nodes, keyAt, slotOf, nextKey, value, root); }
      if nodes[v].parent >= 0 {
        ok := DetachValue(v);
        if !ok { return; }
      } else if !Unattached(nodes[v]) {
        bad := true;
        return false;
      }
      ghost var f := Shape();
      if good {
        DetachedFacts(old(Shape()), f, v);
        NothingGone(f, keyAt, slotOf, nextKey);
        RootFacts(nodes, keyAt, slotOf, root);
        TreeDocument(f, |names|, |strings|, keyAt, slotOf, nextKey, root, v);
      }
      ok := EraseSubtree(v, f, keyAt, slotOf, nextKey, {}, good);
      if !ok { return; }
      if good { kids := kids - RecordsOf(f, Whole(f, v)); }
    }

    /** `v`, everything inside it and their aggregates are gone; the rest is as it was in `f`
        but for the links that held `v`. */
    ghost predicate Removed(f: Traversal.Shape, keyAt0: map<Slot, Key>, slotOf0: map<Key, Slot>, v: Slot)
      reads this
    {
      TreeGone(f, nodes, kids, keyAt0, keyAt, slotOf0, slotOf, v)
    }

    // -------------------------------------------------------------------
    // Members and collision extension

    /** The member of an object that carries a name. */
    method ObjectChild(holder: Key, name: nat) returns (key: Key)
      requires Inv()
      ensures key == NO_KEY <==> MemberNamed(Shape(), SlotOf(holder), name) == NO_SLOT
      ensures key != NO_KEY ==> key in slotOf && slotOf[key] == MemberNamed(Shape(), SlotOf(holder), name)
    {
      hide IsForest, PayloadsValid, RootValid, TablesValid, MemberNamed;
      var d := SlotOf(holder);
      SlotFacts(nodes, kids, rank, bound, d);
      if !IsValue(nodes, d) || !nodes[d].payload.vtype.Object? {
        NoMember(Shape(), d, name);
        return NO_KEY;
      }
      LastFits(nodes, kids, rank, bound, d);
      var child := nodes[nodes[d].owned].first;
      ghost var i := 0;
      ghost var ks := KidsOf(nodes, kids, d);
      while child != NO_SLOT
        invariant 0 <= i <= |ks| && child == At(ks, i)
        invariant forall j :: 0 <= j < i ==> NameAt(nodes, ks[j]) != name
        decreases |ks| - i
      {
        assert i < |ks|;
        KidFacts(nodes, kids, rank, bound, d, i);
        if nodes[child].named && nodes[child].name == name {
          MemberFound(Shape(), d, name, i);
          return KeyOf(child);
        }
        MemberIsNamed(Shape(), d, i);
        child := nodes[child].next;
        i := i + 1;
      }
      if i < |ks| { KidFacts(nodes, kids, rank, bound, d, i); }
      MemberAbsent(Shape(), d, name);
      return NO_KEY;
    }

    /** Old records, lists of children and keys are as they were. */
    ghost predicate Grown(f: Traversal.Shape, keyAt0: map<Slot, Key>, slotOf0: map<Key, Slot>)
      reads this
    {
      Grows(f, Shape(), keyAt0, keyAt, slotOf0, slotOf)
    }

    /** A detached, anonymous, empty value. */
    method CreateShell() returns (key: Key)
      requires Inv()
      modifies `nodes, `keyAt, `slotOf, `nextKey, `kids, `rank, `bound
      ensures Inv() && KeysAdvance(old(slotOf), old(nextKey)) && kids == old(kids)
      ensures key == NO_KEY ==> Unchanged(old(nodes), old(kids), old(keyAt), old(slotOf))
      ensures key != NO_KEY ==>
        ShellMade(old(nodes), old(kids), old(keyAt), old(slotOf), nodes, kids, keyAt, slotOf, key)
      ensures Grown(old(Shape()), old(keyAt), old(slotOf))
      ensures old(IsReady() && Spare() >= 1) ==> key != NO_KEY && Spare() >= old(Spare()) - 1
    {
      KeysKnown(nodes, keyAt, slotOf, nextKey);
      hide IsForest, PayloadsValid, RootValid, TablesValid, KeysValid, Advances, Spare;
      key := CreateValue(EMPTY_PAYLOAD, 0, false);
    }

    /** The outcome of `CreateArrayShell`. */
    ghost predicate ArrayMade(f: Traversal.Shape, slotOf0: map<Key, Slot>, key: Key)
      reads this
    {
      && key !in slotOf0 && key in slotOf && slotOf[key] !in f.nodes && IsArrayShell(nodes, kids, slotOf[key])
      && nodes[slotOf[key]].owned !in f.nodes
    }

    /** A detached, anonymous, empty array. */
    method CreateArrayShell() returns (key: Key)
      requires Inv()
      modifies `nodes, `keyAt, `slotOf, `nextKey, `kids, `rank, `bound
      ensures Inv() && KeysAdvance(old(slotOf), old(nextKey)) && Grown(old(Shape()), old(keyAt), old(slotOf))
      ensures key == NO_KEY ==> Unchanged(old(nodes), old(kids), old(keyAt), old(slotOf))
      ensures key != NO_KEY ==> ArrayMade(old(Shape()), old(slotOf), key)
      ensures old(IsReady() && Spare() >= 2) ==> key != NO_KEY && Spare() >= old(Spare()) - 2
    {
      Known();
      assert PayloadValid(ARRAY_PAYLOAD, |strings|) && NameValid(0, false, |names|);
      hide Inv, Advances, PayloadValid, NameValid, Grows, InsertPair, Spare;
      key := CreateValue(ARRAY_PAYLOAD, 0, false);
      if key == NO_KEY {
        GrowsSame(Shape(), keyAt, slotOf);
      } else {
        ghost var a :| a !in old(nodes) && a != slotOf[key] && a in keyAt
          && nodes == InsertPair(old(nodes), slotOf[key], a, ARRAY_PAYLOAD, 0, false) && kids == old(kids)[a := []]
          && keyAt == old(keyAt)[slotOf[key] := key][a := keyAt[a]] && keyAt[a] !in old(slotOf) && keyAt[a] != key
          && slotOf == old(slotOf)[key := slotOf[key]][keyAt[a] := a];
        PairGrows(old(Shape()), Shape(), old(keyAt), keyAt, old(slotOf), slotOf, slotOf[key], a, key, keyAt[a], ARRAY_PAYLOAD, 0, false);
      }
    }

    ghost predicate Prepared(f: Traversal.Shape, incoming: Key, previous: Key, list: Key, wrap: bool)
      reads this
    {
      && incoming != NO_KEY && incoming in slotOf && slotOf[incoming] !in f.nodes && IsShell(nodes, slotOf[incoming])
      && (wrap ==>
            && previous != NO_KEY && previous in slotOf && slotOf[previous] !in f.nodes && IsShell(nodes, slotOf[previous])
            && list != NO_KEY && list in slotOf && slotOf[list] !in f.nodes && IsArrayShell(nodes, kids, slotOf[list])
            && slotOf[previous] != slotOf[incoming] && nodes[slotOf[list]].owned !in f.nodes)
    }

    lemma Known()
      requires Inv()
      ensures Wf(Shape()) && root == ROOT_KEY && root in slotOf && keyAt.Keys == nodes.Keys && NO_SLOT !in nodes
      ensures forall b :: b in kids ==> b in nodes
      ensures forall k :: k in slotOf ==> slotOf[k] in nodes && slotOf[k] in keyAt && keyAt[slotOf[k]] == k
    {
      KidsKnown(nodes, kids, rank, bound);
    }

    lemma RootKeyed()
      requires Inv()
      ensures root in slotOf
    {
    }

    /** Erases a detached scalar: its record goes, and nothing else changes. */
    method EraseShell(key: Key) returns (erased: bool)
      requires IsReady() && Inv() && key != root && key in slotOf && key != NO_KEY
      requires IsValue(nodes, slotOf[key]) && !IsContainer(nodes[slotOf[key]].payload.vtype) && Unattached(nodes[slotOf[key]])
      modifies `nodes, `keyAt, `slotOf, `kids, `bad
      ensures erased && !bad && Inv() && kids == old(kids)
      ensures nodes == old(nodes) - {old(slotOf)[key]} && keyAt == old(keyAt) - {old(slotOf)[key]} && slotOf == old(slotOf) - {key}
    {
      ShellTree(Shape(), keyAt, slotOf, nextKey, key);
      hide IsForest, PayloadsValid, RootValid, TablesValid, KeysValid, TreeGone;
      erased := Erase(key);
      ShellGone(old(Shape()), nodes, kids, old(keyAt), keyAt, old(slotOf), slotOf, old(slotOf)[key], key);
    }

    /** Every allocation of an extension, made before anything is changed and undone if one fails. */
    method PrepareShells(wrap: bool) returns (incoming: Key, previous: Key, list: Key)
      requires IsReady() && Inv()
      modifies `nodes, `keyAt, `slotOf, `nextKey, `kids, `rank, `bound, `bad
      ensures !bad && Inv() && KeysAdvance(old(slotOf), old(nextKey))
      ensures incoming == NO_KEY ==> Unchanged(old(nodes), old(kids), old(keyAt), old(slotOf))
      ensures incoming != NO_KEY ==> Grown(old(Shape()), old(keyAt), old(slotOf)) && Prepared(old(Shape()), incoming, previous, list, wrap)
      ensures old(Spare()) >= 4 ==> incoming != NO_KEY && Spare() >= old(Spare()) - 4
    {
      RootKeyed();
      hide Inv, Advances, Grows, IsArrayShell, IsShell, ShellMade, Spare, Unchanged;
      previous, list := NO_KEY, NO_KEY;
      incoming := CreateShell();
      if incoming == NO_KEY { return; }
      ShellKnown(old(nodes), old(kids), old(keyAt), old(slotOf), nodes, kids, keyAt, slotOf, incoming);
      if !wrap { return; }
      ghost var f1, keyAt1, slotOf1, next1 := Shape(), keyAt, slotOf, nextKey;
      previous, list := PrepareWrap();
      AdvancesTransitive(old(slotOf), old(nextKey), slotOf1, next1, slotOf, nextKey);
      if list == NO_KEY {
        StillMade(old(nodes), old(kids), old(keyAt), old(slotOf), f1.nodes, f1.kids, keyAt1, slotOf1, incoming);
        TakeBack(incoming, old(nodes), old(kids), old(keyAt), old(slotOf), old(nextKey));
        incoming := NO_KEY;
      } else {
        GrowsTwice(old(Shape()), f1, Shape(), old(keyAt), keyAt1, keyAt, old(slotOf), slotOf1, slotOf, incoming);
        ShellKept(f1.nodes, nodes, slotOf[incoming]);
      }
    }

    /** The two further values that wrapping needs. */
    method PrepareWrap() returns (previous: Key, list: Key)
      requires IsReady() && Inv()
      modifies `nodes, `keyAt, `slotOf, `nextKey, `kids, `rank, `bound, `bad
      ensures !bad && Inv() && KeysAdvance(old(slotOf), old(nextKey))
      ensures list == NO_KEY ==> Unchanged(old(nodes), old(kids), old(keyAt), old(slotOf))
      ensures list != NO_KEY ==>
        previous != NO_KEY && WrapReady(old(Shape()), old(keyAt), old(slotOf), previous, list)
      ensures old(Spare()) >= 3 ==> list != NO_KEY && Spare() >= old(Spare()) - 3
    {
      RootKeyed();
      hide Inv, Advances, Grows, IsArrayShell, IsShell, ShellMade, Spare, ArrayMade, Unchanged, WrapReady;
      list := NO_KEY;
      previous := CreateShell();
      if previous == NO_KEY { return; }
      ShellKnown(old(nodes), old(kids), old(keyAt), old(slotOf), nodes, kids, keyAt, slotOf, previous);
      list := AddList(previous, old(Shape()), old(keyAt), old(slotOf), old(nextKey));
    }

    /** Makes an array shell beside a shell that has just been made; if that fails, the shell is erased again. */
    method AddList(previous: Key, ghost f0: Traversal.Shape, ghost keyAt0: map<Slot, Key>, ghost slotOf0: map<Key, Slot>, ghost next0: Key) returns (list: Key)
      requires IsReady() && Inv() && previous != root && previous != NO_KEY
      requires ShellMade(f0.nodes, f0.kids, keyAt0, slotOf0, nodes, kids, keyAt, slotOf, previous) && Grown(f0, keyAt0, slotOf0) && KeysAdvance(slotOf0, next0)
      modifies `nodes, `keyAt, `slotOf, `nextKey, `kids, `rank, `bound, `bad
      ensures !bad && Inv() && KeysAdvance(slotOf0, next0)
      ensures list == NO_KEY ==> Unchanged(f0.nodes, f0.kids, keyAt0, slotOf0)
      ensures list != NO_KEY ==> WrapReady(f0, keyAt0, slotOf0, previous, list)
      ensures old(Spare()) >= 2 ==> list != NO_KEY && Spare() >= old(Spare()) - 2
    {
      hide Inv, Advances, Grows, IsArrayShell, IsShell, ShellMade, Spare, ArrayMade, Unchanged, WrapReady;
      ShellKnown(f0.nodes, f0.kids, keyAt0, slotOf0, nodes, kids, keyAt, slotOf, previous);
      ghost var f1, keyAt1, slotOf1, next1 := Shape(), keyAt, slotOf, nextKey;
      list := CreateArrayShell();
      AdvancesTransitive(slotOf0, next0, slotOf1, next1, slotOf, nextKey);
      if list == NO_KEY {
        StillMade(f0.nodes, f0.kids, keyAt0, slotOf0, f1.nodes, f1.kids, keyAt1, slotOf1, previous);
        TakeBack(previous, f0.nodes, f0.kids, keyAt0, slotOf0, next0);
      } else {
        WrapPrepared(f0, keyAt0, slotOf0, f1, keyAt1, slotOf1, previous, list);
      }
    }

    /** A shell and an array shell that are new to an earlier state of the document. */
    ghost predicate WrapReady(f0: Traversal.Shape, keyAt0: map<Slot, Key>, slotOf0: map<Key, Slot>, previous: Key, list: Key)
      reads this
    {
      && Grown(f0, keyAt0, slotOf0) && ArrayMade(f0, slotOf0, list)
      && previous in slotOf && slotOf[previous] !in f0.nodes && IsShell(nodes, slotOf[previous])
    }

    /** A shell and then an array shell: both are new to the document as it was before either. */
    lemma WrapPrepared(f0: Traversal.Shape, keyAt0: map<Slot, Key>, slotOf0: map<Key, Slot>,
                       f1: Traversal.Shape, keyAt1: map<Slot, Key>, slotOf1: map<Key, Slot>, previous: Key, list: Key)
      requires Grows(f0, f1, keyAt0, keyAt1, slotOf0, slotOf1) && Grown(f1, keyAt1, slotOf1) && ArrayMade(f1, slotOf1, list)
      requires previous in slotOf1 && slotOf1[previous] in f1.nodes && slotOf1[previous] !in f0.nodes && IsShell(f1.nodes, slotOf1[previous])
      ensures WrapReady(f0, keyAt0, slotOf0, previous, list)
    {
      hide Grows, IsShell, IsArrayShell;
      GrowsTwice(f0, f1, Shape(), keyAt0, keyAt1, keyAt, slotOf0, slotOf1, slotOf, previous);
      ShellKept(f1.nodes, nodes, slotOf[previous]);
    }

    lemma StillMade(nodes0: Nodes, kids0: Kids, keyAt0: map<Slot, Key>, slotOf0: map<Key, Slot>,
                    nodes1: Nodes, kids1: Kids, keyAt1: map<Slot, Key>, slotOf1: map<Key, Slot>, key: Key)
      requires ShellMade(nodes0, kids0, keyAt0, slotOf0, nodes1, kids1, keyAt1, slotOf1, key) && Unchanged(nodes1, kids1, keyAt1, slotOf1)
      ensures ShellMade(nodes0, kids0, keyAt0, slotOf0, nodes, kids, keyAt, slotOf, key) && slotOf == slotOf1
    {
    }

    /** Erases a shell again: all is as it was before it was made. */
    method TakeBack(shell: Key, ghost nodes0: Nodes, ghost kids0: Kids, ghost keyAt0: map<Slot, Key>, ghost slotOf0: map<Key, Slot>, ghost next0: Key)
      requires IsReady() && Inv() && shell != root && shell != NO_KEY && ShellMade(nodes0, kids0, keyAt0, slotOf0, nodes, kids, keyAt, slotOf, shell)
      requires KeysAdvance(slotOf0, next0)
      modifies `nodes, `keyAt, `slotOf, `kids, `bad
      ensures !bad && Inv() && Unchanged(nodes0, kids0, keyAt0, slotOf0) && KeysAdvance(slotOf0, next0)
    {
      hide Inv, Advances;
      AdvancesBack(slotOf0, next0, slotOf, nextKey);
      var erased := EraseShell(shell);
    }

    // The steps of a collision: `f0` is the forest before them, `e` the member that is kept
    // and `c` the candidate.

    ghost predicate Merges(f0: Traversal.Shape, d: Slot, existing: Key, candidate: Key)
      reads this
    {
      && IsReady() && Inv()
      && existing != NO_KEY && candidate != NO_KEY && existing != root && candidate != root
      && existing in slotOf && candidate in slotOf
      && Colliding(f0, d, slotOf[existing], slotOf[candidate])
      && Frame(f0, Shape(), d, slotOf[existing], slotOf[candidate])
    }

    /** Moves the payload of `source`, unless it is empty, into a new shell. */
    method MoveIn(target: Key, source: Key) returns (ok: bool)
      requires IsReady() && Inv() && target != NO_KEY && source != NO_KEY && target in slotOf && source in slotOf && source != root
      requires IsShell(nodes, slotOf[target]) && IsValue(nodes, slotOf[source]) && slotOf[target] != slotOf[source]
      modifies `nodes, `rank, `bound, `bad
      ensures ok && !bad && Inv() && Moved(old(nodes), nodes, slotOf[target], slotOf[source]) && nodes.Keys == old(nodes.Keys)
    {
      ghost var f := Shape();
      var t, s := SlotOf(target), SlotOf(source);
      PayloadFacts(nodes, |names|, |strings|, s);
      if nodes[s].payload.vtype.EmptyValue? {
        MovedNothing(f, |strings|, t, s);
        return true;
      }
      MovedPayload(f, t, s);
      UnderStep(nodes, t, s);
      SlotsDiffer(nodes, keyAt, slotOf, nextKey, source, root);
      hide Inv, Moved;
      ok := MoveValuePayload(t, s);
    }

    /** A new array takes a new value. */
    lemma NewVerdict(list: Key, child: Key)
      requires IsReady() && Inv()
      requires list != NO_KEY && list in slotOf && child != NO_KEY && child in slotOf && child != root && slotOf[list] != slotOf[child]
      requires IsValue(nodes, slotOf[list]) && nodes[slotOf[list]].payload == ARRAY_PAYLOAD && Unattached(nodes[slotOf[list]])
      requires IsValue(nodes, slotOf[child]) && Unattached(nodes[slotOf[child]])
      ensures Verdict(list, child).Accepted?
      ensures SlotOf(list) == slotOf[list] && SlotOf(child) == slotOf[child]
    {
      Known();
      UnderStep(nodes, slotOf[list], slotOf[child]);
    }

    /** Appends a detached new value to a detached new array. */
    method AppendNew(list: Key, child: Key, ghost f0: Traversal.Shape, ghost d: Slot, ghost existing: Key, ghost candidate: Key) returns (ok: bool)
      requires Merges(f0, d, existing, candidate)
      requires list != NO_KEY && list in slotOf && child != NO_KEY && child in slotOf && child != root && slotOf[list] != slotOf[child]
      requires slotOf[list] !in f0.nodes && slotOf[child] !in f0.nodes
      requires IsValue(nodes, slotOf[list]) && nodes[slotOf[list]].payload == ARRAY_PAYLOAD && Unattached(nodes[slotOf[list]])
      requires nodes[slotOf[list]].owned !in f0.nodes
      requires IsValue(nodes, slotOf[child]) && Unattached(nodes[slotOf[child]])
      modifies `nodes, `kids, `rank, `bound, `bad
      ensures ok && Merges(f0, d, existing, candidate) && nodes.Keys == old(nodes.Keys)
      ensures LinkedUnder(old(nodes), old(kids), nodes, kids, slotOf[list], slotOf[child], |KidsOf(old(nodes), old(kids), slotOf[list])|)
    {
      hide IsValue, SameCore;
      ghost var f := Shape();
      NewVerdict(list, child);
      Known();
      KidsKnown(f0.nodes, f0.kids, f0.rank, f0.bound);
      hide Inv, Frame, Colliding, Verdict, LinkedUnder, Screened, Wf;
      var r := AppendChild(list, child);
      Known();
      FrameLink(f0, f, Shape(), d, slotOf[existing], slotOf[candidate], slotOf[list], slotOf[child], |KidsOf(f.nodes, f.kids, slotOf[list])|);
      return r.Accepted?;
    }

    /** The new values of a wrapping extension, all still detached: `incoming` holds what the
        candidate held, the other two are empty. */
    ghost predicate Hands(f0: Traversal.Shape, c: Slot, incoming: Key, previous: Key, list: Key)
      reads this
    {
      && incoming in slotOf && previous in slotOf && list in slotOf
      && incoming != NO_KEY && previous != NO_KEY && list != NO_KEY && incoming != root && previous != root
      && slotOf[incoming] != slotOf[previous] && slotOf[list] != slotOf[incoming] && slotOf[list] != slotOf[previous]
      && Carries(f0, Shape(), c, slotOf[incoming]) && Unattached(nodes[slotOf[incoming]])
      && slotOf[previous] !in f0.nodes && IsShell(nodes, slotOf[previous])
      && slotOf[list] !in f0.nodes && IsArrayShell(nodes, kids, slotOf[list]) && nodes[slotOf[list]].owned !in f0.nodes
    }

    /** The old value of the retained member goes into a new value; both new values go into a new array. */
    method WrapLists(existing: Key, candidate: Key, incoming: Key, previous: Key, list: Key, ghost f0: Traversal.Shape, ghost d: Slot)
      returns (ok: bool)
      requires Merges(f0, d, existing, candidate) && Hands(f0, slotOf[candidate], incoming, previous, list)
      requires SameCore(f0.nodes[slotOf[existing]], nodes[slotOf[existing]])
      modifies `nodes, `kids, `rank, `bound, `bad
      ensures ok && Merges(f0, d, existing, candidate) && nodes.Keys == old(nodes.Keys)
      ensures Carries(f0, Shape(), slotOf[candidate], slotOf[incoming]) && Carries(f0, Shape(), slotOf[existing], slotOf[previous])
      ensures nodes[slotOf[existing]].payload == EMPTY_PAYLOAD && nodes[slotOf[candidate]].payload == old(nodes[slotOf[candidate]]).payload
      ensures var y := slotOf[list];
        && IsValue(nodes, y) && Unattached(nodes[y]) && !nodes[y].named && nodes[y].payload == ARRAY_PAYLOAD
        && nodes[y].owned in kids && kids[nodes[y].owned] == [slotOf[previous], slotOf[incoming]]
    {
      hide Inv, Frame, Colliding, Wf, LinkedUnder;
      ghost var f := Shape();
      ghost var e, c, i, p, y := slotOf[existing], slotOf[candidate], slotOf[incoming], slotOf[previous], slotOf[list];
      Known();
      FrameApart(f0, f, d, e, c, p);
      ok := MoveIn(previous, existing);
      ghost var f1 := Shape();
      FrameMove(f0, f, f1, d, e, c, p, e);
      assert f1.nodes[y] == f.nodes[y] && f1.nodes[i] == f.nodes[i];
      ok := AppendNew(list, previous, f0, d, existing, candidate);
      ghost var f2 := Shape();
      LinkedFacts(f1, f2, y, p, 0, {i, c, e, y, p});
      ok := AppendNew(list, incoming, f0, d, existing, candidate);
      LinkedFacts(f2, Shape(), y, i, 1, {i, c, e, y, p});
    }

    /** The payload of the new array becomes the member's. */
    method TakeArray(existing: Key, candidate: Key, list: Key, ghost f0: Traversal.Shape, ghost d: Slot) returns (ok: bool)
      requires Merges(f0, d, existing, candidate) && list != NO_KEY && list in slotOf && list != root && slotOf[list] !in f0.nodes
      requires IsValue(nodes, slotOf[list]) && nodes[slotOf[list]].payload == ARRAY_PAYLOAD && Unattached(nodes[slotOf[list]]) && !nodes[slotOf[list]].named
      requires IsValue(nodes, slotOf[existing]) && nodes[slotOf[existing]].payload == EMPTY_PAYLOAD && slotOf[existing] != slotOf[list]
      modifies `nodes, `keyAt, `slotOf, `rank, `bound, `bad
      ensures ok && IsReady() && Inv() && slotOf == old(slotOf) - {list}
      ensures nodes == MoveNodes(old(nodes), old(slotOf)[existing], old(slotOf)[list]) - {old(slotOf)[list]}
      ensures Moved(old(nodes), MoveNodes(old(nodes), old(slotOf)[existing], old(slotOf)[list]), old(slotOf)[existing], old(slotOf)[list])
    {
      hide Inv, Frame, Colliding, Moved, MoveNodes;
      Known();
      NotAbove(f0, Shape(), d, slotOf[existing], slotOf[candidate], slotOf[list]);
      MovedPayload(Shape(), slotOf[existing], slotOf[list]);
      var attached := AttachPayload(existing, list);
      return attached != NO_KEY;
    }

    /** The rest of a wrapping extension: the new array's payload replaces the member's, and the
        emptied candidate goes. */
    method FinishWrapping(existing: Key, candidate: Key, incoming: Key, previous: Key, list: Key, ghost f0: Traversal.Shape, ghost d: Slot)
      returns (ok: bool)
      requires Merges(f0, d, existing, candidate) && Hands(f0, slotOf[candidate], incoming, previous, list) && list != root
      requires SameCore(f0.nodes[slotOf[existing]], nodes[slotOf[existing]]) && nodes[slotOf[candidate]].payload == EMPTY_PAYLOAD
      requires !f0.nodes[slotOf[existing]].payload.vtype.Array? || f0.nodes[slotOf[candidate]].payload.vtype.Array?
      modifies `nodes, `keyAt, `slotOf, `kids, `rank, `bound, `bad
      ensures ok && !bad && Inv() && Extended(f0, Shape(), old(slotOf)[existing], old(slotOf)[candidate])
      ensures slotOf == old(slotOf) - {list} - {candidate}
      ensures nodes.Keys <= old(nodes.Keys)
    {
      hide Inv, Frame, Colliding, LinkedUnder, Moved, Wf, Extended, MoveNodes;
      ghost var e, c, i, p, y := slotOf[existing], slotOf[candidate], slotOf[incoming], slotOf[previous], slotOf[list];
      Known();
      FrameApart(f0, Shape(), d, e, c, y);
      ok := WrapLists(existing, candidate, incoming, previous, list, f0, d);
      ghost var f5 := Shape();
      Known();
      FrameApart(f0, f5, d, e, c, y);
      FrameDetached(f0, f5, d, e, c);
      ok := TakeArray(existing, candidate, list, f0, d);
      ghost var nodes6 := MoveNodes(f5.nodes, e, y);
      MovedOthers(f5.nodes, nodes6, e, y, c);
      ok := EraseShell(candidate);
      assert nodes == nodes6 - {y} - {c};
      Known();
      FinishWrap(f0, f5, Shape(), d, e, c, i, p, y);
    }

    /** The other extension: the new value becomes the last element of the member, and the
        emptied candidate goes. */
    method FinishAppending(existing: Key, candidate: Key, incoming: Key, ghost f0: Traversal.Shape, ghost d: Slot) returns (ok: bool)
      requires Merges(f0, d, existing, candidate) && incoming != NO_KEY && incoming in slotOf && incoming != root
      requires Carries(f0, Shape(), slotOf[candidate], slotOf[incoming]) && Unattached(nodes[slotOf[incoming]])
      requires SameCore(f0.nodes[slotOf[existing]], nodes[slotOf[existing]]) && nodes[slotOf[candidate]].payload == EMPTY_PAYLOAD
      requires f0.nodes[slotOf[existing]].payload.vtype.Array? && !f0.nodes[slotOf[candidate]].payload.vtype.Array?
      modifies `nodes, `keyAt, `slotOf, `kids, `rank, `bound, `bad
      ensures ok && !bad && Inv() && Extended(f0, Shape(), old(slotOf)[existing], old(slotOf)[candidate])
      ensures slotOf == old(slotOf) - {candidate}
      ensures nodes.Keys <= old(nodes.Keys)
    {
      hide Inv, Frame, Colliding, LinkedUnder, Verdict;
      ghost var e, c, i := slotOf[existing], slotOf[candidate], slotOf[incoming];
      ghost var f2 := Shape();
      Known();
      FrameApart(f0, f2, d, e, c, i);
      FrameDetached(f0, f2, d, e, c);
      NotAbove(f0, f2, d, e, c, i);
      ArrayTakes(existing, incoming);
      var r := AppendChild(existing, incoming);
      LinkedFacts(f2, Shape(), e, i, |KidsOf(f2.nodes, f2.kids, e)|, {c});
      ghost var nodes3 := nodes;
      ok := EraseShell(candidate);
      ok := ok && r.Accepted?;
      Known();
      FinishAppend(f0, f2, Shape(), d, e, c, i);
    }

    /** An array takes any detached value that it is not inside of. */
    lemma ArrayTakes(list: Key, child: Key)
      requires IsReady() && Inv()
      requires list != NO_KEY && list in slotOf && child != NO_KEY && child in slotOf && child != root
      requires IsValue(nodes, slotOf[list]) && nodes[slotOf[list]].payload.vtype.Array?
      requires IsValue(nodes, slotOf[child]) && Unattached(nodes[slotOf[child]]) && !Under(nodes, slotOf[list], slotOf[child])
      ensures Verdict(list, child).Accepted?
      ensures SlotOf(list) == slotOf[list] && SlotOf(child) == slotOf[child]
    {
    }

    /** Prepares every new value of an extension and moves the candidate's payload into the first. */
    method PrepareMerge(existing: Key, candidate: Key, wrap: bool, ghost d: Slot) returns (incoming: Key, previous: Key, list: Key)
      requires Merges(Shape(), d, existing, candidate)
      modifies `nodes, `keyAt, `slotOf, `nextKey, `kids, `rank, `bound, `bad
      ensures !bad && Inv() && KeysAdvance(old(slotOf), old(nextKey))
      ensures incoming == NO_KEY ==> Unchanged(old(nodes), old(kids), old(keyAt), old(slotOf))
      ensures incoming != NO_KEY ==>
        && Merges(old(Shape()), d, existing, candidate) && nodes[slotOf[candidate]].payload == EMPTY_PAYLOAD
        && SameCore(old(nodes)[slotOf[existing]], nodes[slotOf[existing]])
        && incoming in slotOf && incoming != root && Carries(old(Shape()), Shape(), slotOf[candidate], slotOf[incoming]) && Unattached(nodes[slotOf[incoming]])
        && (wrap ==> Hands(old(Shape()), slotOf[candidate], incoming, previous, list) && list != root)
        && incoming !in old(slotOf) && (wrap ==> list !in old(slotOf))
        && (forall k :: k in old(slotOf) ==> k in slotOf && slotOf[k] == old(slotOf)[k])
      ensures old(Spare()) >= 4 ==> incoming != NO_KEY && Spare() >= old(Spare()) - 4
    {
      hide Inv, Frame, Colliding, Advances, IsShell, IsArrayShell, Carries, SameCore, Wf, Spare;
      ghost var f0, e, c := Shape(), slotOf[existing], slotOf[candidate];
      Known();
      incoming, previous, list := PrepareShells(wrap);
      if incoming == NO_KEY { return; }
      Known();
      GrownFrame(f0, Shape(), d, e, c);
      MoveCandidate(existing, candidate, incoming, previous, list, wrap, f0, d);
    }

    method MoveCandidate(existing: Key, candidate: Key, incoming: Key, previous: Key, list: Key, wrap: bool, ghost f0: Traversal.Shape, ghost d: Slot)
      requires Merges(f0, d, existing, candidate) && Prepared(f0, incoming, previous, list, wrap) && incoming != root && (wrap ==> previous != root)
      requires nodes[slotOf[candidate]] == f0.nodes[slotOf[candidate]] && nodes[slotOf[existing]] == f0.nodes[slotOf[existing]]
      modifies `nodes, `rank, `bound, `bad
      ensures Merges(f0, d, existing, candidate) && nodes[slotOf[candidate]].payload == EMPTY_PAYLOAD
      ensures SameCore(f0.nodes[slotOf[existing]], nodes[slotOf[existing]])
      ensures Carries(f0, Shape(), slotOf[candidate], slotOf[incoming]) && Unattached(nodes[slotOf[incoming]])
      ensures wrap ==> Hands(f0, slotOf[candidate], incoming, previous, list)
      ensures Spare() == old(Spare())
    {
      hide Inv, Frame, Colliding, Moved, SpareOf;
      ghost var f1, e, c := Shape(), slotOf[existing], slotOf[candidate];
      Known();
      FrameApart(f0, f1, d, e, c, slotOf[incoming]);
      var committed := MoveIn(incoming, candidate);
      KeysCounted(old(nodes), nodes);
      FrameMove(f0, f1, Shape(), d, e, c, slotOf[incoming], c);
      MovedInto(f1.nodes, nodes, slotOf[incoming], c);
    }

    /** Brings the candidate into the member of its name, or fails and changes nothing. */
    method MergeMember(existing: Key, candidate: Key, ghost d: Slot) returns (key: Key)
      requires Merges(Shape(), d, existing, candidate)
      modifies `nodes, `keyAt, `slotOf, `nextKey, `kids, `rank, `bound, `bad
      ensures !bad && Inv() && KeysAdvance(old(slotOf), old(nextKey))
      ensures key == NO_KEY ==> Unchanged(old(nodes), old(kids), old(keyAt), old(slotOf))
      ensures key != NO_KEY ==>
        && key == existing && Extended(old(Shape()), Shape(), old(slotOf)[existing], old(slotOf)[candidate])
        && candidate !in slotOf && forall k :: k in old(slotOf) && k != candidate ==> k in slotOf && slotOf[k] == old(slotOf)[k]
      ensures old(Spare()) >= 4 ==> key != NO_KEY && Spare() >= old(Spare()) - 4
    {
      hide Inv, Frame, Advances, Extended, Spare, SpareOf;
      ghost var f0, slots, next := Shape(), slotOf, nextKey;
      FrameDetached(f0, f0, d, slotOf[existing], slotOf[candidate]);
      var wrap := !nodes[SlotOf(existing)].payload.vtype.Array? || nodes[SlotOf(candidate)].payload.vtype.Array?;
      var incoming, previous, list := PrepareMerge(existing, candidate, wrap, d);
      key := NO_KEY;
      if incoming == NO_KEY { return; }
      ghost var slots', nodes1 := slotOf, nodes;
      SpareIs();
      var committed;
      if wrap {
        committed := FinishWrapping(existing, candidate, incoming, previous, list, f0, d);
      } else {
        committed := FinishAppending(existing, candidate, incoming, f0, d);
      }
      AdvancesLess(slots, next, slots', slotOf, nextKey);
      KeysCounted(nodes1, nodes);
      SpareGrows(granted, |nodes1|, nextKey, |nodes|);
      SpareIs();
      bad := bad || !committed;
      if committed { key := existing; }
    }

    /** What extending `destination` by `candidate` did: nothing, an attachment at the end, or a
        merge into the member of that name, which keeps its key, name and place. */
    ghost predicate Extends(f0: Traversal.Shape, slotOf0: map<Key, Slot>, keyAt0: map<Slot, Key>, destination: Key, candidate: Key, key: Key)
      requires Wf(f0) && destination in slotOf0 && candidate in slotOf0
      requires IsValue(f0.nodes, slotOf0[destination]) && IsValue(f0.nodes, slotOf0[candidate])
      reads this
    {
      var d, c := slotOf0[destination], slotOf0[candidate];
      var e := MemberNamed(f0, d, f0.nodes[c].name);
      if e == NO_SLOT then
        && key == candidate && keyAt == keyAt0 && slotOf == slotOf0
        && LinkedUnder(f0.nodes, f0.kids, nodes, kids, d, c, |KidsOf(f0.nodes, f0.kids, d)|)
      else
        && key in slotOf0 && slotOf0[key] == e && IsValue(f0.nodes, e) && Extended(f0, Shape(), e, c)
        && candidate !in slotOf && forall k :: k in slotOf0 && k != candidate ==> k in slotOf && slotOf[k] == slotOf0[k]
    }

    /** A candidate for extension: a detached, named value that does not hold the object. */
    ghost predicate Extendable(destination: Key, candidate: Key)
      reads this
    {
      && IsReady() && Contains(destination) && nodes[SlotOf(destination)].payload.vtype.Object?
      && Contains(candidate) && candidate != root && Unattached(nodes[SlotOf(candidate)]) && nodes[SlotOf(candidate)].named
      && !Under(nodes, SlotOf(destination), SlotOf(candidate))
    }

    lemma Collision(d: Slot, existing: Key, candidate: Key)
      requires IsReady() && Inv() && existing in slotOf && candidate in slotOf && IsValue(nodes, d) && IsValue(nodes, slotOf[candidate])
      requires Unattached(nodes[slotOf[candidate]]) && !Under(nodes, d, slotOf[candidate]) && candidate != root && candidate != NO_KEY
      requires slotOf[existing] == MemberNamed(Shape(), d, nodes[slotOf[candidate]].name) && slotOf[existing] != NO_SLOT
      ensures Merges(Shape(), d, existing, candidate)
    {
      CollidingStart(Shape(), keyAt, slotOf, nextKey, root, d, existing, candidate);
    }

    lemma SpareIs()
      ensures Spare() == SpareOf(granted, |nodes|, nextKey)
    {
    }

    /** Linking makes no records. */
    lemma LinkSpares(f0: Traversal.Shape, d: Slot, c: Slot)
      requires LinkedUnder(f0.nodes, f0.kids, nodes, kids, d, c, |KidsOf(f0.nodes, f0.kids, d)|)
      ensures Spare() == SpareOf(granted, |f0.nodes|, nextKey)
    {
      hide KidsOf;
      KeysCounted(f0.nodes, nodes);
    }

    /** Adds a named detached value to an object, merging it with the member of its name if there is one. */
    method ExtendObjectChild(destination: Key, candidate: Key) returns (key: Key)
      requires Valid()
      modifies `nodes, `keyAt, `slotOf, `nextKey, `kids, `rank, `bound, `bad
      ensures Valid() && bad == old(bad) && KeysAdvance(old(slotOf), old(nextKey))
      ensures key == NO_KEY ==> Unchanged(old(nodes), old(kids), old(keyAt), old(slotOf))
      ensures key != NO_KEY ==>
        old(Extendable(destination, candidate)) && Extends(old(Shape()), old(slotOf), old(keyAt), destination, candidate, key)
      ensures old(Extendable(destination, candidate)) && old(MemberNamed(Shape(), SlotOf(destination), nodes[SlotOf(candidate)].name)) == NO_SLOT ==>
        key == candidate
      ensures old(Extendable(destination, candidate) && Spare() >= 4) ==> key != NO_KEY && Spare() >= old(Spare()) - 4
    {
      AdvancesSame(slotOf, nextKey);
      SpareIs();
      hide Inv, Advances, Extended, MemberNamed, LinkedUnder, Spare, SpareOf;
      key := NO_KEY;
      if !IsReady() || !Contains(destination) || !nodes[SlotOf(destination)].payload.vtype.Object?
         || !Contains(candidate) || candidate == root || !Unattached(nodes[SlotOf(candidate)]) || !nodes[SlotOf(candidate)].named {
        return NO_KEY;
      }
      Known();
      ghost var f0, d, c := Shape(), SlotOf(destination), SlotOf(candidate);
      var ok, cycle := QueryAncestry(SlotOf(destination), SlotOf(candidate));
      if !ok || cycle { return NO_KEY; }
      var existing := ObjectChild(destination, nodes[SlotOf(candidate)].name);
      if existing == NO_KEY {
        NoNamesake(f0, d, c);
        var r := AppendChild(destination, candidate);
        if r.Accepted? {
          key := candidate;
          LinkSpares(f0, d, c);
        }
        return;
      }
      Collision(d, existing, candidate);
      key := MergeMember(existing, candidate, d);
    }

    // -------------------------------------------------------------------
    // Names

    /** Looks a name up in the table; zero is the empty name. */
    method FindName(text: Bytes) returns (found: bool, id: nat)
      ensures found ==> id <= |names| && TextAt(names, id) == text && (text == [] ==> id == 0)
      ensures !found ==> text != [] && text !in names
    {
      if text == [] { return true, 0; }
      id := 0;
      while id < |names|
        invariant id <= |names| && text !in names[..id]
      {
        if names[id] == text { return true, id + 1; }
        id := id + 1;
      }
      return false, 0;
    }

    /** The identifier of a name, which enters the table if it is new and there is room. */
    method InternName(text: Bytes) returns (ok: bool, id: nat)
      modifies `names
      ensures ok ==> id <= |names| && TextAt(names, id) == text && id < 0xffff_ffff && (text == [] ==> id == 0)
      ensures old(Inv()) && !breaks(text) ==> Inv() && old(names) <= names && (!ok ==> names == old(names) && text !in names && text != [])
      ensures forall x: int :: 0 <= x <= |old(names)| ==> TextAt(names, x) == TextAt(old(names), x)
      ensures ok && text != [] && text !in old(names) ==> names == old(names) + [text] && id == |names|
      ensures names == old(names) || names == old(names) + [text]
      ensures granted && |old(names)| + 1 < 0xffff_ffff ==> ok
    {
      ok, id := FindName(text);
      if ok { return id < 0xffff_ffff, id; }
      var room := Requests.Ask(granted);
      if |names| + 1 >= 0xffff_ffff || !room { return false, 0; }
      if Inv() && !breaks(text) { NameEntered(nodes, breaks, names, strings, text); }
      hide IsForest, KeysValid, PayloadsValid, TablesValid, RootValid;
      names := names + [text];
      return true, |names|;
    }

    /** The identifier of a string value, which enters the table if it is new and there is room. */
    method InternString(text: Bytes) returns (ok: bool, id: nat)
      modifies `strings
      ensures ok ==> id <= |strings| && TextAt(strings, id) == text && id < 0xffff_ffff
      ensures old(Inv()) ==> Inv() && old(strings) <= strings
      ensures ok && text != [] && text !in old(strings) ==> strings == old(strings) + [text] && id == |strings|
      ensures strings == old(strings) || strings == old(strings) + [text]
      ensures granted && |old(strings)| + 1 < 0xffff_ffff ==> ok
    {
      if text == [] { return true, 0; }
      var n := 0;
      while n < |strings|
        invariant 0 <= n <= |strings| && text !in strings[..n]
      {
        if strings[n] == text { return n + 1 < 0xffff_ffff, n + 1; }
        n := n + 1;
      }
      var room := Requests.Ask(granted);
      if |strings| + 1 >= 0xffff_ffff || !room { return false, 0; }
      if Inv() { StringEntered(nodes, breaks, names, strings, text); }
      hide IsForest, KeysValid, PayloadsValid, TablesValid, RootValid;
      strings := strings + [text];
      return true, |strings|;
    }

    lemma Tables()
      requires Inv()
      ensures IsForest(nodes, kids, rank, bound) && PayloadsValid(nodes, |names|, |strings|) && TablesValid(breaks, names, strings)
    {
    }

    /** The value that holds a value, by key. */
    method ParentOf(value: Key) returns (holder: Key)
      ensures Inv() ==> SlotOf(holder) == Up(nodes, SlotOf(value)) && (holder != NO_KEY <==> Up(nodes, SlotOf(value)) != NO_SLOT)
    {
      if Inv() { UpKeyed(nodes, kids, keyAt, slotOf, nextKey, SlotOf(value)); }
      hide IsForest, KeysValid, PayloadsValid, TablesValid, RootValid;
      var v := SlotOf(value);
      if !IsValue(nodes, v) || nodes[v].parent < 0 { return NO_KEY; }
      var a := nodes[v].parent;
      return if IsAggregate(nodes, a) then KeyOf(nodes[a].owner) else NO_KEY;
    }

    /** Whether another member of the object that holds `key` has this name. */
    method Blocked(key: Key, holder: Key, id: nat) returns (blocked: bool)
      requires Inv() && Contains(key) && SlotOf(holder) == Up(nodes, SlotOf(key)) && id <= |names|
      ensures blocked <==> Taken(nodes, kids, names, SlotOf(key), TextAt(names, id))
    {
      hide Inv, Taken, MemberNamed;
      var namesake := ObjectChild(holder, id);
      NamesakeFacts(key, holder, id, namesake);
      return namesake != NO_KEY && namesake != key;
    }

    /** Names a value, or takes its name away. `raw` is the spelling given and `text` its
        prepared form, which is what the table holds. */
    method SetName(key: Key, present: bool, raw: Bytes, text: Bytes) returns (ok: bool)
      requires Valid() && (!present ==> text == [])
      modifies `nodes, `names
      ensures Valid() && (old(IsReady()) ==> old(names) <= names)
      ensures !ok ==> nodes == old(nodes)
      ensures ok ==>
        && old(IsReady() && Contains(key)) && key != root && !breaks(text)
        && !old(Taken(nodes, kids, names, SlotOf(key), text))
        && nodes[SlotOf(key)].name <= |names| && TextAt(names, nodes[SlotOf(key)].name) == text
        && nodes == Renamed(old(nodes), SlotOf(key), nodes[SlotOf(key)].name, present)
      ensures old(IsReady() && Contains(key)) && key != root && !breaks(text) && (text == [] || text in old(names) || (granted && |old(names)| + 1 < 0xffff_ffff)) ==>
        (ok <==> var v := SlotOf(key); old(
                   !Taken(nodes, kids, names, v, text)
                   && (IsValue(nodes, Up(nodes, v)) && nodes[Up(nodes, v)].payload.vtype.Object? ==>
                         present && ((raw == [] || raw in names) ==> !Taken(nodes, kids, names, v, raw)))))
    {
      hide Inv, Taken, TextAt, Up, Renamed;
      if !IsReady() || !Contains(key) || key == root || breaks(text) { return false; }
      var holder := ParentOf(key);
      var allowed := NameAllowed(key, holder, present, raw);
      if !allowed { return false; }
      ok := EnterName(key, holder, present, text);
    }

    /** Whether a member keeps a name, and the name as given is not in use beside it. */
    method NameAllowed(key: Key, holder: Key, present: bool, raw: Bytes) returns (allowed: bool)
      requires Inv() && Contains(key) && SlotOf(holder) == Up(nodes, SlotOf(key))
      ensures allowed <==> (
        IsValue(nodes, Up(nodes, SlotOf(key))) && nodes[Up(nodes, SlotOf(key))].payload.vtype.Object? ==>
          present && ((raw == [] || raw in names) ==> !Taken(nodes, kids, names, SlotOf(key), raw)))
    {
      hide Inv, Taken, Up, TextAt;
      if !Contains(holder) || !nodes[SlotOf(holder)].payload.vtype.Object? { return true; }
      if !present { return false; }
      var found, id := FindName(raw);
      if !found { return true; }
      KnownName(raw, id);
      var blocked := Blocked(key, holder, id);
      return !blocked;
    }

    lemma KnownName(text: Bytes, id: nat)
      requires id <= |names| && TextAt(names, id) == text && (text == [] ==> id == 0)
      ensures text == [] || text in names
    {
    }

    /** Interns a name and writes it, unless it is in use beside the value. */
    method EnterName(key: Key, holder: Key, present: bool, text: Bytes) returns (ok: bool)
      requires Inv() && Contains(key) && key != root && SlotOf(holder) == Up(nodes, SlotOf(key))
      requires !breaks(text) && (!present ==> text == [])
      requires IsValue(nodes, Up(nodes, SlotOf(key))) && nodes[Up(nodes, SlotOf(key))].payload.vtype.Object? ==> present
      modifies `nodes, `names
      ensures Inv() && old(names) <= names && (!ok ==> nodes == old(nodes))
      ensures ok ==>
        && !old(Taken(nodes, kids, names, SlotOf(key), text))
        && IsValue(nodes, SlotOf(key)) && nodes[SlotOf(key)].name <= |names| && TextAt(names, nodes[SlotOf(key)].name) == text
        && nodes == Renamed(old(nodes), SlotOf(key), nodes[SlotOf(key)].name, present)
      ensures text == [] || text in old(names) || (granted && |old(names)| + 1 < 0xffff_ffff) ==>
        (ok <==> !old(Taken(nodes, kids, names, SlotOf(key), text)))
    {
      OffRoot(key);
      TakenKept(SlotOf(key), text);
      hide Inv, Taken, Up, TextAt;
      var interned, id := InternName(text);
      if !interned { return false; }
      var blocked := Blocked(key, holder, id);
      if blocked { return false; }
      WriteName(SlotOf(key), id, present);
      return true;
    }

    lemma ForestKnown()
      requires Inv()
      ensures Linked(nodes, kids) && NO_SLOT !in nodes
    {
    }

    lemma TakenKept(v: Slot, text: Bytes)
      requires Inv()
      ensures forall names': seq<Bytes> :: (forall x: int :: 0 <= x <= |names| ==> TextAt(names', x) == TextAt(names, x)) ==>
        (Taken(nodes, kids, names', v, text) <==> Taken(nodes, kids, names, v, text))
    {
      forall names': seq<Bytes> | forall x: int :: 0 <= x <= |names| ==> TextAt(names', x) == TextAt(names, x)
        ensures Taken(nodes, kids, names', v, text) <==> Taken(nodes, kids, names, v, text) {
        TakenGrown(nodes, kids, names, names', |strings|, v, text);
      }
    }

    method WriteName(v: Slot, id: nat, present: bool)
      requires Inv() && IsValue(nodes, v) && v != SlotOf(root) && NameValid(id, present, |names|)
      requires !Taken(nodes, kids, names, v, TextAt(names, id))
      requires IsValue(nodes, Up(nodes, v)) && nodes[Up(nodes, v)].payload.vtype.Object? ==> present
      modifies `nodes
      ensures Inv() && nodes == Renamed(old(nodes), v, id, present)
    {
      TakenById(nodes, kids, breaks, names, strings, v, id);
      hide IsForest, KeysValid, PayloadsValid, TablesValid, RootValid, Taken;
      RootFacts(nodes, keyAt, slotOf, root);
      RenameDocument(nodes, kids, rank, bound, |names|, |strings|, keyAt, slotOf, nextKey, root, v, id, present);
      nodes := nodes[v := nodes[v].(name := id, named := present)];
    }

    /** The member found under a name is another value exactly when the text is taken. */
    lemma NamesakeFacts(key: Key, holder: Key, id: nat, namesake: Key)
      requires Inv() && Contains(key) && SlotOf(holder) == Up(nodes, SlotOf(key)) && id <= |names|
      requires namesake == NO_KEY <==> MemberNamed(Shape(), SlotOf(holder), id) == NO_SLOT
      requires namesake != NO_KEY ==> namesake in slotOf && slotOf[namesake] == MemberNamed(Shape(), SlotOf(holder), id)
      ensures namesake != NO_KEY && namesake != key <==> Taken(nodes, kids, names, SlotOf(key), TextAt(names, id))
    {
    }

    lemma OffRoot(key: Key)
      requires Inv() && Contains(key) && key != root
      ensures SlotOf(key) != SlotOf(root)
    {
      SlotsDiffer(nodes, keyAt, slotOf, nextKey, key, root);
    }

    // -------------------------------------------------------------------
    // Initialisation and the root's type

    constructor (breaks: LineBreaks, granted: bool)
      ensures this.granted == granted && (granted ==> root != NO_KEY && Spare() >= SLOT_LIMIT - 2)
      ensures this.breaks == breaks && !bad && names == [] && strings == [] && Valid()
      ensures root == NO_KEY ==> nodes == map[]
      ensures root != NO_KEY ==> Inv() && Children(root) == [] && nodes[SlotOf(root)].payload == Payload(Object, 0, false, PLAIN) && nextKey == 3
      ensures forall s :: IsValue(nodes, s) ==> s == SlotOf(root)
    {
      this.breaks, this.granted := breaks, granted;
      nodes, keyAt, slotOf := map[], map[], map[];
      names, strings := [], [];
      root, nextKey, bad := NO_KEY, ROOT_KEY, false;
      kids, rank, bound := map[], map[], 1;
      new;
      InsertRootPair();
    }

    /** The first two keys go to an empty object and its aggregate. */
    method InsertRootPair()
      requires nodes == map[] && keyAt == map[] && slotOf == map[] && root == NO_KEY && nextKey == ROOT_KEY && kids == map[] && bound == 1 && !bad
      requires names == [] && strings == []
      modifies `nodes, `keyAt, `slotOf, `kids, `rank, `nextKey, `root
      ensures root == NO_KEY ==> nodes == map[]
      ensures (granted ==> root != NO_KEY) && |nodes| <= 2
      ensures root != NO_KEY ==> Inv() && Children(root) == [] && nodes[SlotOf(root)].payload == Payload(Object, 0, false, PLAIN) && nextKey == 3
      ensures forall s :: IsValue(nodes, s) ==> s == SlotOf(root)
    {
      hide IsForest, KeysValid, PayloadsValid, RootValid, TablesValid, InsertPair, KidsOf, IsValue, Spare, Inv;
      NoValues();
      NoTables();
      var rootKey := AllocateKey();
      var aggregateKey := AllocateKey();
      var s, a := InsertRecords(rootKey, aggregateKey, Payload(Object, 0, false, PLAIN), 0, false);
      if a == NO_SLOT { return; }
      RootPairDocument(s, a);
      kids, rank := map[a := []], map[s := 0];
      root := rootKey;
      Holds();
    }

    lemma NoTables()
      requires names == [] && strings == []
      ensures TablesValid(breaks, names, strings)
    {
    }

    lemma NoValues()
      requires nodes == map[]
      ensures forall s :: !IsValue(nodes, s)
    {
    }

    /** Turns an empty root into an object or an array. */
    method SetRootType(t: ValueType) returns (ok: bool)
      requires Valid()
      modifies `nodes
      ensures Valid() && ok == (IsReady() && IsContainer(t) && Children(root) == [])
      ensures !ok ==> nodes == old(nodes)
      ensures ok ==>
        && nodes.Keys == old(nodes).Keys && Children(root) == []
        && (forall s :: s in nodes && s != SlotOf(root) && s != old(nodes)[SlotOf(root)].owned ==> nodes[s] == old(nodes)[s])
        && nodes[SlotOf(root)] == old(nodes)[SlotOf(root)].(payload := Payload(t, 0, false, PLAIN))
        && (forall s :: IsValue(nodes, s) <==> IsValue(old(nodes), s))
    {
      hide IsForest, KeysValid, PayloadsValid, TablesValid;
      if !IsReady() { return false; }
      RootFacts(nodes, keyAt, slotOf, root);
      LastFits(nodes, kids, rank, bound, SlotOf(root));
      var r := SlotOf(root);
      var a := nodes[r].owned;
      if !IsContainer(t) || nodes[a].count != 0 { return false; }
      PayloadFacts(nodes, |names|, |strings|, r);
      RetypeRoot(nodes, kids, rank, bound, |names|, |strings|, keyAt, slotOf, nextKey, root, t);
      nodes := nodes[a := nodes[a].(kind := KindOf(t))];
      nodes := nodes[r := nodes[r].(payload := nodes[r].payload.(vtype := t))];
      return true;
    }

    // -------------------------------------------------------------------
    // Integrity

    /** Audits the document as found. The slot container is taken to be a partial map. */
    method CheckIntegrity() returns (ok: bool)
      requires Integrity.SlotsAgree(nodes, keyAt, slotOf)
      ensures ok <==> IsReady() && Integrity.Sound(nodes, keyAt, slotOf, nextKey, root, breaks, names, strings)
      ensures IsReady() && Inv() ==> ok
    {
      if !IsReady() { return false; }
      if Inv() { Integrity.InvSound(nodes, kids, rank, bound, keyAt, slotOf, nextKey, root, breaks, names, strings); }
      ok := Integrity.CheckIntegrity(nodes, keyAt, slotOf, nextKey, root, breaks, names, strings);
    }
  }
}
