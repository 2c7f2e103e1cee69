/**
 * The Mem0 backend with its local fallback (core/mem0_backend.py): a store of
 * memory dicts keyed by the lower-cased agent name, a substring search over
 * it, and a lazily created remote client. The remote service's answers are
 * parameters (`None` standing for a raised exception).
 */
module Mem0Backend {
  import opened Wrappers
  import opened Py
  import opened PyJson

  /** `mem.get("text", "").lower()`: `None` when that raises, i.e. when the
      memory is not a dict or its text is not a string. */
  function TextOf(mem: Json): Option<string> {
    if !mem.JObj? then None
    else match Get(mem.fields, "text", JStr(""))
      case JStr(t) => Some(t)
      case _ => None
  }

  predicate Matches(mem: Json, query: string)
    requires TextOf(mem).Some?
  {
    Contains(Lower(TextOf(mem).value), Lower(query))
  }

  /** The local search loop, with `cap` results still allowed: matches in
      store order, stopping at the `cap`-th match; a memory whose text cannot
      be read before that point raises. */
  function Search(mems: seq<Json>, query: string, cap: nat): Result<seq<Json>> {
    if cap == 0 || mems == [] then Ok([])
    else match TextOf(mems[0])
      case None => Err("text is not a string")
      case Some(t) =>
        if Contains(Lower(t), Lower(query)) then
          if cap == 1 then Ok([mems[0]])
          else match Search(mems[1..], query, cap - 1)
            case Ok(rest) => Ok([mems[0]] + rest)
            case Err(e) => Err(e)
        else Search(mems[1..], query, cap)
  }

  /** A search returns at most `cap` memories, each a readable stored memory
      whose text contains the query. */
  lemma {:induction false} SearchSound(mems: seq<Json>, query: string, cap: nat)
    ensures var r := Search(mems, query, cap);
      r.Ok? ==> |r.value| <= cap && |r.value| <= |mems| &&
                forall m :: m in r.value ==> m in mems && TextOf(m).Some? && Matches(m, query)
  {
    if cap != 0 && mems != [] && TextOf(mems[0]).Some? {
      SearchSound(mems[1..], query, cap);
      SearchSound(mems[1..], query, cap - 1);
      var rest := Search(mems[1..], query, cap - 1);
      if rest.Ok? {
        forall m | m in rest.value ensures m in mems {
          assert m in mems[1..];
        }
      }
      var skip := Search(mems[1..], query, cap);
      if skip.Ok? {
        forall m | m in skip.value ensures m in mems {
          assert m in mems[1..];
        }
      }
    }
  }

  /** Every readable memory whose text contains the query, in store order. */
  function AllMatches(mems: seq<Json>, query: string): seq<Json>
    requires forall m :: m in mems ==> TextOf(m).Some?
  {
    if mems == [] then []
    else (if Matches(mems[0], query) then [mems[0]] else []) + AllMatches(mems[1..], query)
  }

  /** With readable texts, the search is the first `cap` of all matches: it
      misses none that fits under the bound. */
  lemma {:induction false} SearchIsPrefixOfMatches(mems: seq<Json>, query: string, cap: nat)
    requires forall m :: m in mems ==> TextOf(m).Some?
    ensures var all := AllMatches(mems, query);
      Search(mems, query, cap) == Ok(if |all| <= cap then all else all[..cap])
  {
    if cap != 0 && mems != [] {
      var m := mems[0];
      var rest := AllMatches(mems[1..], query);
      var all := AllMatches(mems, query);
      if Matches(m, query) {
        assert all == [m] + rest;
        if cap == 1 {
          assert Search(mems, query, cap) == Ok([m]);
          if rest != [] {
            assert all[..1] == [m];
          } else {
            assert all == [m];
          }
        } else {
          SearchIsPrefixOfMatches(mems[1..], query, cap - 1);
          if |rest| > cap - 1 {
            assert all[..cap] == [m] + rest[..cap - 1];
          }
        }
      } else {
        assert all == rest;
        SearchIsPrefixOfMatches(mems[1..], query, cap);
      }
    }
  }

  /** `search_memory`'s bound: `k` results for `k >= 1`, and still one for
      `k <= 0`, because the bound is checked after appending. */
  function Cap(k: int): nat {
    if k >= 1 then k else 1
  }

  /** The local loop of `search_memory`: matches are appended in store order
      and the bound is checked after each append. */
  method LocalSearch(mems: seq<Json>, query: string, k: int) returns (r: Result<seq<Json>>)
    ensures r == Search(mems, query, Cap(k))
  {
    var results: seq<Json> := [];
    var i := 0;
    assert mems[0..] == mems;
    PrefixedEmpty(Search(mems, query, Cap(k)));
    while i < |mems|
      invariant 0 <= i <= |mems|
      invariant |results| < Cap(k)
      invariant Search(mems, query, Cap(k)) == Prefixed(results, Search(mems[i..], query, Cap(k) - |results|))
    {
      ghost var cap := Cap(k) - |results|;
      SearchAt(mems, i, query, cap);
      var text := TextOf(mems[i]);
      if text.None? {
        return Err("text is not a string");
      }
      if Contains(Lower(text.value), Lower(query)) {
        PrefixedAppend(results, mems[i], Search(mems[i + 1..], query, cap - 1));
        results := results + [mems[i]];
        if |results| >= k {
          assert cap == 1;
          return Ok(results);
        }
      }
      i := i + 1;
    }
    assert mems[i..] == [];
    assert results + [] == results;
    return Ok(results);
  }

  /** One step of the search from position `i`. */
  lemma SearchAt(mems: seq<Json>, i: nat, query: string, cap: nat)
    requires i < |mems| && cap > 0
    ensures TextOf(mems[i]).None? ==> Search(mems[i..], query, cap) == Err("text is not a string")
    ensures TextOf(mems[i]).Some? && !Contains(Lower(TextOf(mems[i]).value), Lower(query)) ==>
      Search(mems[i..], query, cap) == Search(mems[i + 1..], query, cap)
    ensures TextOf(mems[i]).Some? && Contains(Lower(TextOf(mems[i]).value), Lower(query)) ==>
      Search(mems[i..], query, cap) ==
        if cap == 1 then Ok([mems[i]]) else Prefixed([mems[i]], Search(mems[i + 1..], query, cap - 1))
  {
    assert mems[i..][0] == mems[i];
    assert mems[i..][1..] == mems[i + 1..];
  }

  lemma PrefixedEmpty(rest: Result<seq<Json>>)
    ensures Prefixed([], rest) == rest
  {
    if rest.Ok? {
      assert [] + rest.value == rest.value;
    }
  }

  /** The module's globals: `_CLIENT`, `_MEMORY_STORE`, whether the SDK imported
      and `_API_KEY`. `clientsMade` counts client constructions and `remoteLog`
      the memories handed to the remote client. */
  class Backend {
    const sdkAvailable: bool
    const apiKey: string
    var hasClient: bool
    var clientsMade: nat
    var store: map<string, seq<Json>>
    var remoteLog: seq<(string, Json)>

    predicate Valid()
      reads this
    {
      clientsMade <= 1 && (hasClient <==> clientsMade == 1)
    }

    constructor (sdkAvailable: bool, apiKey: string)
      ensures this.sdkAvailable == sdkAvailable && this.apiKey == apiKey
      ensures !hasClient && clientsMade == 0 && store == map[] && remoteLog == []
      ensures Valid()
    {
      this.sdkAvailable := sdkAvailable;
      this.apiKey := apiKey;
      hasClient := false;
      clientsMade := 0;
      store := map[];
      remoteLog := [];
    }

    /** `init_client()`: creates the client at most once, and only with the
        SDK and a key. */
    method InitClient() returns (client: bool)
      requires Valid()
      modifies this
      ensures Valid()
      ensures client == hasClient
      ensures hasClient == (old(hasClient) || (sdkAvailable && apiKey != ""))
      ensures store == old(store) && remoteLog == old(remoteLog)
    {
      if !hasClient && sdkAvailable && apiKey != "" {
        hasClient := true;
        clientsMade := clientsMade + 1;
      }
      client := hasClient;
    }

    /** The agent's local list (`_MEMORY_STORE.get(agent.lower(), [])`). */
    function Local(agent: string): seq<Json>
      reads this
    {
      if Lower(agent) in store then store[Lower(agent)] else []
    }

    /** `add_memory(agent, memory)`: hand it to the client if there is one (its
        failures are swallowed), and always append it locally. */
    method AddMemory(agent: string, memory: Json)
      requires Valid()
      modifies this
      ensures Valid()
      ensures hasClient == (old(hasClient) || (sdkAvailable && apiKey != ""))
      ensures store == old(store)[Lower(agent) := old(Local(agent)) + [memory]]
      ensures remoteLog == old(remoteLog) + (if hasClient then [(agent, memory)] else [])
    {
      var client := InitClient();
      if client {
        remoteLog := remoteLog + [(agent, memory)];
      }
      var key := Lower(agent);
      var list := if key in store then store[key] else [];
      store := store[key := list + [memory]];
    }

    /** `search_memory(agent, query, k)`; `remote` is the client's answer. */
    method SearchMemory(agent: string, query: string, k: int, remote: Option<seq<Json>>)
      returns (r: Result<seq<Json>>)
      requires Valid()
      modifies this
      ensures Valid()
      ensures hasClient == (old(hasClient) || (sdkAvailable && apiKey != ""))
      ensures store == old(store) && remoteLog == old(remoteLog)
      ensures hasClient ==> r == Ok(if remote.Some? then remote.value else [])
      ensures !hasClient ==> r == Search(Local(agent), query, Cap(k))
    {
      var client := InitClient();
      if client {
        return Ok(if remote.Some? then remote.value else []);
      }
      r := LocalSearch(Local(agent), query, k);
    }

    /** `get_all_memories(agent)`: the remote list, or a copy of the local one. */
    method GetAllMemories(agent: string, remote: Option<seq<Json>>) returns (r: seq<Json>)
      requires Valid()
      modifies this
      ensures Valid()
      ensures hasClient == (old(hasClient) || (sdkAvailable && apiKey != ""))
      ensures store == old(store) && remoteLog == old(remoteLog)
      ensures hasClient ==> r == (if remote.Some? then remote.value else [])
      ensures !hasClient ==> r == Local(agent)
    {
      var client := InitClient();
      if client {
        return if remote.Some? then remote.value else [];
      }
      r := Local(agent);
    }
  }

  /** `results` followed by the outcome of the rest of the search. */
  function Prefixed(results: seq<Json>, rest: Result<seq<Json>>): Result<seq<Json>> {
    match rest
    case Ok(more) => Ok(results + more)
    case Err(e) => Err(e)
  }

  lemma PrefixedAppend(results: seq<Json>, m: Json, rest: Result<seq<Json>>)
    ensures Prefixed(results, Prefixed([m], rest)) == Prefixed(results + [m], rest)
  {
    if rest.Ok? {
      assert results + ([m] + rest.value) == (results + [m]) + rest.value;
    }
  }
}
