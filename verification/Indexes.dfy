/** The contract's owner indexes: for each account the set of what it owns, an emptied set removed. */
module Indexes {

  type Index<T> = map<string, set<T>>

  function ItemsOf<T>(index: Index<T>, owner: string): set<T> {
    if owner in index then index[owner] else {}
  }

  function Added<T>(index: Index<T>, owner: string, item: T): Index<T> {
    index[owner := ItemsOf(index, owner) + {item}]
  }

  function Removed<T>(index: Index<T>, owner: string, item: T): Index<T> {
    if owner !in index then index
    else if index[owner] - {item} == {} then index - {owner}
    else index[owner := index[owner] - {item}]
  }

  /** Each owner's entry is exactly what it owns, and no entry is empty. */
  ghost predicate Exact<T(!new)>(index: Index<T>, owners: map<T, string>) {
    && (forall t :: t in owners ==> owners[t] in index && t in index[owners[t]])
    && (forall o :: o in index ==> index[o] != {})
    && (forall o, t :: o in index && t in index[o] ==> t in owners && owners[t] == o)
  }

  lemma AddedIsExact<T(!new)>(index: Index<T>, owners: map<T, string>, owner: string, item: T)
    requires Exact(index, owners) && (item in owners ==> owners[item] == owner)
    ensures Exact(Added(index, owner, item), owners[item := owner])
  {
  }

  lemma RemovedIsExact<T(!new)>(index: Index<T>, owners: map<T, string>, item: T)
    requires Exact(index, owners) && item in owners
    ensures Exact(Removed(index, owners[item], item), owners - {item})
  {
    var owner := owners[item];
    var after := Removed(index, owner, item);
    forall t | t in owners - {item}
      ensures owners[t] in after && t in after[owners[t]]
    {
      assert t in index[owners[t]];
      if owners[t] == owner {
        assert t in index[owner] - {item};
      }
    }
  }
}
