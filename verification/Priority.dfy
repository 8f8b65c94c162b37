/** The dependency tree of HTTP/2 streams (adjustStreamPriority of bfe_http2/server.go, sections
    5.3.1 and 5.3.3 of RFC 7540): parent pointers among stream objects, closed ones included,
    rewired in place. */
module Priority {

  class StreamNode {
    const id: nat
    var parent: StreamNode?
    var weight: nat

    constructor (id: nat)
      ensures this.id == id && parent == null && weight == 0
    {
      this.id := id;
      parent := null;
      weight := 0;
    }
  }

  class PriorityTree {
    /** The open streams. */
    var streams: map<nat, StreamNode>
    /** Every stream object ever made, and a rank that grows from parent to child. */
    ghost var all: set<StreamNode>
    ghost var rank: map<StreamNode, nat>

    ghost predicate Valid()
      reads this, all`parent
    {
      && (forall id :: id in streams ==> streams[id] in all && streams[id].id == id)
      && rank.Keys == all
      && (forall s :: s in all && s.parent != null ==> s.parent in all && rank[s.parent] < rank[s])
    }

    /** x is s or a direct or indirect dependant of s. */
    ghost predicate Below(x: StreamNode, s: StreamNode)
      requires Valid() && x in all
      reads this, all`parent
      decreases rank[x]
    {
      x == s || (x.parent != null && Below(x.parent, s))
    }

    lemma {:induction false} BelowRank(x: StreamNode, s: StreamNode)
      requires Valid() && x in all && s in all && Below(x, s)
      ensures rank[s] <= rank[x]
      decreases rank[x]
    {
      if x != s { BelowRank(x.parent, s); }
    }

    /** The k-th ancestor, or null past the root. */
    ghost function Ancestor(x: StreamNode, k: nat): (r: StreamNode?)
      requires Valid() && x in all
      reads this, all`parent
      ensures r != null ==> r in all && rank[r] + k <= rank[x]
    {
      if k == 0 then x
      else if x.parent == null then null
      else Ancestor(x.parent, k - 1)
    }

    /** The parent graph is a forest: no stream is among its own ancestors, and every ancestor walk
        ends. */
    lemma {:induction false} Forest(x: StreamNode)
      requires Valid() && x in all
      ensures forall k :: k > 0 ==> Ancestor(x, k) != x
      ensures Ancestor(x, rank[x] + 1) == null
    {
    }

    constructor ()
      ensures Valid() && streams == map[] && all == {}
    {
      streams, all, rank := map[], {}, map[];
    }

    /** A new stream starts as a root. */
    method Open(id: nat) returns (st: StreamNode)
      requires Valid() && id !in streams
      modifies this
      ensures Valid() && fresh(st) && st.id == id && st.parent == null
      ensures streams == old(streams)[id := st] && all == old(all) + {st}
      ensures forall s :: s in old(all) ==> s.parent == old(s.parent) && s.weight == old(s.weight)
    {
      st := new StreamNode(id);
      streams := streams[id := st];
      all := all + {st};
      rank := rank[st := 0];
    }

    /** A closed stream leaves the map; pointers to it stay. */
    method Close(id: nat)
      requires Valid()
      modifies this`streams
      ensures Valid() && streams == old(streams) - {id}
    {
      streams := streams - {id};
    }

    /** Hang x under p. It keeps the forest exactly because p is not below x; everything below x
        is ranked higher. */
    method Attach(x: StreamNode, p: StreamNode?)
      requires Valid() && x in all && (p != null ==> p in all && !Below(p, x))
      modifies x`parent, this`rank
      ensures Valid() && x.parent == p
      ensures forall s :: s in all && !old(Below(s, x)) ==> rank[s] == old(rank[s])
    {
      ghost var lift := if p == null then 0 else rank[p] + 1;
      ghost var under := set s | s in all && Below(s, x);
      ghost var raised := map s | s in all :: if s in under then rank[s] + lift else rank[s];
      x.parent := p;
      rank := raised;
    }

    /** The ancestor walk of adjustStreamPriority; it ends because ranks fall. */
    method DependsOn(p: StreamNode?, st: StreamNode) returns (found: bool)
      requires Valid() && (p != null ==> p in all)
      ensures found <==> p != null && Below(p, st)
    {
      var piter := p;
      while piter != null
        invariant piter != null ==> piter in all
        invariant (p != null && Below(p, st)) <==> (piter != null && Below(piter, st))
        decreases if piter == null then 0 else rank[piter] + 1
      {
        if piter == st {
          return true;
        }
        piter := piter.parent;
      }
      return false;
    }

    /** Where x hangs after the dependency of st on `parent` is made, before exclusivity: if parent
        depended on st it first takes st's place. */
    ghost function Rehung(x: StreamNode, st: StreamNode, parent: StreamNode?): StreamNode?
      requires Valid() && x in all && (parent != null ==> parent in all)
      reads this, all`parent, x`parent, st`parent
    {
      if x == st then parent
      else if x == parent && Below(x, st) then st.parent
      else x.parent
    }

    method Rehang(st: StreamNode, parent: StreamNode?)
      requires Valid() && st in all && parent != st && (parent != null ==> parent in all)
      modifies all`parent, this`rank
      ensures Valid() && st.parent == parent && forall x :: x in all ==> x.parent == old(Rehung(x, st, parent))
    {
      var below := DependsOn(parent, st);
      if below {
        BelowRank(parent.parent, st);
        var up := st.parent;
        if up != null && Below(up, parent) { BelowRank(up, parent); }
        ghost var was := rank;
        Attach(parent, up);
        assert !Below(parent, st) by {
          if up != null && Below(up, st) { BelowRank(up, st); }
        }
      }
      Attach(st, parent);
    }

    lemma {:induction false} SiblingNotAbove(x: StreamNode, st: StreamNode)
      requires Valid() && x in all && st in all && x != st && x.parent == st.parent
      ensures !Below(st, x)
    {
      if Below(st, x) { BelowRank(st.parent, x); }
    }

    lemma {:induction false} InAll(k: nat)
      requires Valid() && k in streams
      ensures streams[k] in all
    {
    }

    /** The exclusive loop, in whatever order the map is visited. */
    method TakeOver(st: StreamNode, order: seq<nat>)
      requires Valid() && st in all && (forall k :: k in order <==> k in streams)
      modifies all`parent, this`rank
      ensures Valid()
      ensures forall x :: x in all ==>
                x.parent == if x != st && x in streams.Values && old(x.parent) == old(st.parent) then st
                            else old(x.parent)
    {
      hide Valid;
      ghost var seen: set<StreamNode> := {};
      for i := 0 to |order|
        invariant Valid() && st.parent == old(st.parent)
        invariant seen <= streams.Values && (forall j :: 0 <= j < i ==> streams[order[j]] in seen)
        invariant forall x :: x in all ==>
          x.parent == if x != st && x in seen && old(x.parent) == old(st.parent) then st else old(x.parent)
      {
        var x := streams[order[i]];
        InAll(order[i]);
        seen := seen + {x};
        if x != st && x.parent == st.parent {
          SiblingNotAbove(x, st);
          Attach(x, st);
        }
      }
    }

    /** Where x hangs after a reprioritisation of st. */
    ghost function Reprioritised(x: StreamNode, st: StreamNode, parent: StreamNode?, exclusive: bool): StreamNode?
      requires Valid() && x in all && (parent != null ==> parent in all)
      reads this, all`parent, x`parent, st`parent
    {
      var up := Rehung(x, st, parent);
      if exclusive && x != st && x in streams.Values && up == parent then st else up
    }

    /** adjustStreamPriority. An unknown stream is ignored, a dependency on itself only sets the
        weight. Otherwise the forest is rewired as section 5.3.3 of RFC 7540 says, whatever the map
        order; and an exclusive dependency that takes effect leaves the stream the only open child
        of its new parent. */
    method Adjust(id: nat, dep: nat, exclusive: bool, weight: nat, order: seq<nat>)
      requires Valid() && (forall k :: k in order <==> k in streams)
      modifies all, this`rank
      ensures Valid()
      ensures id !in streams ==> forall x :: x in all ==> x.parent == old(x.parent) && x.weight == old(x.weight)
      ensures id in streams ==>
                var st := streams[id];
                var parent: StreamNode? := if dep in streams then streams[dep] else null;
                var takesOver := exclusive && (parent != null || dep == 0);
                && (forall x :: x in all ==> x.weight == if x == st then weight else old(x.weight))
                && (forall x :: x in all ==>
                      x.parent == if parent == st then old(x.parent) else old(Reprioritised(x, st, parent, takesOver)))
                && (parent != st && takesOver ==>
                      && st.parent == parent
                      && forall k :: k in streams && streams[k].parent == parent ==> streams[k] == st)
    {
      hide Below, Rehung;
      if id !in streams {
        return;
      }
      var st := streams[id];
      st.weight := weight;
      var parent: StreamNode? := if dep in streams then streams[dep] else null;
      if parent == st {
        return;
      }
      Rehang(st, parent);
      if exclusive && (st.parent != null || dep == 0) {
        TakeOver(st, order);
      }
    }
  }
}
