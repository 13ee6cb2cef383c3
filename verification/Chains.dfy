/** Singly linked lists threaded through one `next` pointer per element. */
module Chains {
  import opened Prelude

  /** Following `next` from `head` visits exactly this chain. */
  ghost predicate Leads<T>(next: map<T, Option<T>>, head: Option<T>, chain: seq<T>) {
    && head == Nth(chain, 0)
    && forall k :: 0 <= k < |chain| ==> chain[k] in next && next[chain[k]] == Nth(chain, k + 1)
  }

  /** No element is twice in a chain or in two chains. */
  ghost predicate Apart<P, T>(chains: map<P, seq<T>>) {
    && (forall p :: p in chains ==> Distinct(chains[p]))
    && (forall p, q, x :: p in chains && q in chains && x in chains[p] && x in chains[q] ==> p == q)
  }

  /** Many lists, each from its own head. */
  ghost predicate Lists<P, T>(next: map<T, Option<T>>, heads: map<P, Option<T>>, chains: map<P, seq<T>>) {
    && heads.Keys == chains.Keys
    && forall p :: p in chains ==> Leads(next, heads[p], chains[p])
  }

  lemma LeadsAt<T>(next: map<T, Option<T>>, head: Option<T>, chain: seq<T>, k: nat)
    requires Leads(next, head, chain) && k < |chain|
    ensures chain[k] in next && next[chain[k]] == Nth(chain, k + 1)
  {
  }

  lemma LeadsNone<T>(next: map<T, Option<T>>)
    ensures Leads(next, None, [])
  {
  }

  lemma LeadsFrame<T>(next: map<T, Option<T>>, head: Option<T>, chain: seq<T>, x: T, n: Option<T>)
    requires Leads(next, head, chain) && x !in chain
    ensures Leads(next[x := n], head, chain)
  {
  }

  lemma LeadsPush<T>(next: map<T, Option<T>>, head: Option<T>, chain: seq<T>, x: T)
    requires Leads(next, head, chain) && x !in chain
    ensures Leads(next[x := head], Some(x), [x] + chain)
  {
  }

  lemma LeadsPop<T>(next: map<T, Option<T>>, x: T, chain: seq<T>)
    requires Leads(next, Some(x), chain)
    ensures x in next && chain != [] && chain[0] == x && x in chain && Leads(next, next[x], chain[1..])
    ensures Distinct(chain) ==> x !in chain[1..]
  {
  }

  /** Unhooking the first element of a chain. */
  lemma LeadsDropFirst<T>(next: map<T, Option<T>>, head: Option<T>, chain: seq<T>)
    requires Leads(next, head, chain) && chain != [] && Distinct(chain)
    ensures Leads(next[chain[0] := None], next[chain[0]], chain[1..])
  {
    assert forall k :: 0 <= k < |chain| - 1 ==> chain[1..][k] == chain[k + 1] != chain[0];
  }

  /** Unhooking a later one, from the element before it. */
  lemma LeadsDropLater<T>(next: map<T, Option<T>>, head: Option<T>, chain: seq<T>, i: nat)
    requires Leads(next, head, chain) && 0 < i < |chain| && Distinct(chain)
    ensures Leads(next[chain[i] := None][chain[i - 1] := next[chain[i]]], head, chain[..i] + chain[i + 1..])
  {
    var rest := chain[..i] + chain[i + 1..];
    var next' := next[chain[i] := None][chain[i - 1] := next[chain[i]]];
    forall k | 0 <= k < |rest|
      ensures rest[k] in next' && next'[rest[k]] == Nth(rest, k + 1)
    {
      hide Leads, Distinct;
      DropAt(next, head, chain, i, k);
    }
  }

  lemma Differ<T>(chain: seq<T>, j: nat, k: nat)
    requires Distinct(chain) && j < |chain| && k < |chain|
    ensures j != k ==> chain[j] != chain[k]
  {
  }

  lemma DropAt<T>(next: map<T, Option<T>>, head: Option<T>, chain: seq<T>, i: nat, k: nat)
    requires Leads(next, head, chain) && 0 < i < |chain| && Distinct(chain) && k < |chain| - 1
    ensures var rest := chain[..i] + chain[i + 1..];
            && chain[i] in next
            && var next' := next[chain[i] := None][chain[i - 1] := next[chain[i]]];
               rest[k] in next' && next'[rest[k]] == Nth(rest, k + 1)
  {
    hide Leads, Distinct;
    var j := if k < i then k else k + 1;
    var rest := chain[..i] + chain[i + 1..];
    assert rest[k] == chain[j] && Nth(rest, k + 1) == Nth(chain, if k + 1 < i then k + 1 else k + 2);
    LeadsAt(next, head, chain, j);
    LeadsAt(next, head, chain, i);
    Differ(chain, j, i);
    Differ(chain, j, i - 1);
  }

  // ----- many lists -----

  lemma ListsAt<P, T>(next: map<T, Option<T>>, heads: map<P, Option<T>>, chains: map<P, seq<T>>, p: P)
    requires Lists(next, heads, chains) && p in chains
    ensures p in heads && Leads(next, heads[p], chains[p])
  {
  }

  lemma ListsKeys<P, T>(next: map<T, Option<T>>, heads: map<P, Option<T>>, chains: map<P, seq<T>>)
    requires Lists(next, heads, chains)
    ensures heads.Keys == chains.Keys
  {
  }

  lemma OnlyIn<P, T>(chains: map<P, seq<T>>, p: P, x: T)
    requires Apart(chains) && p in chains && x in chains[p]
    ensures Distinct(chains[p]) && forall q :: q in chains && q != p ==> x !in chains[q]
  {
  }

  /** Changing the pointer of an element leaves the chains it is not in. */
  lemma ListsFrame<P, T>(next: map<T, Option<T>>, heads: map<P, Option<T>>, chains: map<P, seq<T>>, out: P,
                         x: T, n: Option<T>)
    requires heads.Keys == chains.Keys
    requires forall q :: q in chains && q != out ==> x !in chains[q] && Leads(next, heads[q], chains[q])
    ensures forall q :: q in chains && q != out ==> Leads(next[x := n], heads[q], chains[q])
  {
    forall q | q in chains && q != out
      ensures Leads(next[x := n], heads[q], chains[q])
    {
      LeadsFrame(next, heads[q], chains[q], x, n);
    }
  }

  /** Pushing an element that is in no chain onto one chain leaves the others alone. */
  lemma ListsPush<P, T>(next: map<T, Option<T>>, heads: map<P, Option<T>>, chains: map<P, seq<T>>, p: P, x: T)
    requires Lists(next, heads, chains) && p in chains && forall q :: q in chains ==> x !in chains[q]
    ensures Lists(next[x := heads[p]], heads[p := Some(x)], chains[p := [x] + chains[p]])
  {
    hide Leads;
    forall q | q in chains
      ensures Leads(next[x := heads[p]], heads[q], chains[q])
    {
      LeadsFrame(next, heads[q], chains[q], x, heads[p]);
    }
    LeadsPush(next, heads[p], chains[p], x);
  }

  /** Changing the pointers of one chain's elements leaves the other chains alone. */
  lemma ListsDrop<P, T>(next: map<T, Option<T>>, next': map<T, Option<T>>, heads: map<P, Option<T>>,
                        chains: map<P, seq<T>>, p: P, head: Option<T>, rest: seq<T>)
    requires Lists(next, heads, chains) && p in chains && Leads(next', head, rest)
    requires forall q, x :: q in chains && x in chains[q] && x in chains[p] ==> q == p
    requires next'.Keys == next.Keys && forall x :: x in next && x !in chains[p] ==> next'[x] == next[x]
    ensures Lists(next', heads[p := head], chains[p := rest])
  {
    forall q | q in chains && q != p
      ensures Leads(next', heads[q], chains[q])
    {
      assert forall k :: 0 <= k < |chains[q]| ==> chains[q][k] in chains[q] && chains[q][k] !in chains[p];
    }
  }

  /** Unhooking the element at place i of a list: from its head, or from the element before it. */
  lemma Unhooking<P, T>(next: map<T, Option<T>>, heads: map<P, Option<T>>, chains: map<P, seq<T>>, p: P, i: nat)
    requires Apart(chains) && Lists(next, heads, chains) && p in chains && i < |chains[p]|
    ensures var chain := chains[p];
            && p in heads && chain[i] in next
            && var next1 := next[chain[i] := None];
               var next' := if i == 0 then next1 else next1[chain[i - 1] := next[chain[i]]];
               var head := if i == 0 then next[chain[0]] else heads[p];
               Lists(next', heads[p := head], chains[p := chain[..i] + chain[i + 1..]])
  {
    var chain := chains[p];
    ListsAt(next, heads, chains, p);
    OnlyIn(chains, p, chain[i]);
    LeadsAt(next, heads[p], chain, i);
    var next1 := next[chain[i] := None];
    var next' := if i == 0 then next1 else next1[chain[i - 1] := next[chain[i]]];
    var head := if i == 0 then next[chain[0]] else heads[p];
    var rest := chain[..i] + chain[i + 1..];
    if i == 0 {
      LeadsDropFirst(next, heads[p], chain);
      assert rest == chain[1..];
    } else {
      LeadsAt(next, heads[p], chain, i - 1);
      LeadsDropLater(next, heads[p], chain, i);
    }
    hide Leads, Distinct;
    ListsDrop(next, next', heads, chains, p, head, rest);
  }

  /** Taking the first element of one list and pushing it onto another. */
  lemma ListsMove<P, T>(next: map<T, Option<T>>, heads: map<P, Option<T>>, chains: map<P, seq<T>>, from: P, to: P)
    requires Apart(chains) && Lists(next, heads, chains) && from in chains && to in chains && from != to
    requires chains[from] != []
    ensures var x := chains[from][0];
            && x in next && from in heads && to in heads && heads[from] == Some(x)
            && Lists(next[x := heads[to]], heads[from := next[x]][to := Some(x)],
                     chains[from := chains[from][1..]][to := [x] + chains[to]])
  {
    var chain := chains[from];
    var x := chain[0];
    ListsAt(next, heads, chains, from);
    ListsAt(next, heads, chains, to);
    assert heads[from] == Some(x);
    OnlyIn(chains, from, x);
    LeadsPop(next, x, chain);
    hide Leads, Distinct, Apart;
    LeadsFrame(next, next[x], chain[1..], x, heads[to]);
    LeadsPush(next, heads[to], chains[to], x);
    ListsFrame(next, heads, chains, from, x, heads[to]);
  }
}
