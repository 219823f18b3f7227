/**
 * The posts entity store: the reducer that keeps the client-side map from
 * post id to post record (src/reducers/reducer_posts.js).
 *
 * Every arm of the reducer builds a new value and never mutates the old
 * state, so the reducer is a function here.
 */
module PostsReducer {
  import opened Wrappers

  /** Post ids are the keys of a JavaScript object, so they are strings. */
  type Id = string

  datatype Post = Post(id: Id, title: string, categories: string, content: string)

  /** The entity store: absence of a key means "not loaded". */
  type Store = map<Id, Post>

  /** The payload of each action type the reducer recognises. */
  datatype Action =
    | FetchAll(posts: seq<Post>)   // FETCH_POSTS
    | FetchOne(post: Post)         // FETCH_POST
    | Delete(id: Id)               // DELETE_POST
    | Other                        // any other action type

  /** The ids carried by a sequence of posts. */
  function Ids(s: seq<Post>): set<Id>
  {
    set i | 0 <= i < |s| :: s[i].id
  }

  /** No post after position `i` carries the same id as `s[i]`. */
  predicate LastWithItsId(s: seq<Post>, i: int)
    requires 0 <= i < |s|
  {
    forall j :: i < j < |s| ==> s[j].id != s[i].id
  }

  /** All ids of `s` are distinct. */
  predicate UniqueIds(s: seq<Post>)
  {
    forall i, j :: 0 <= i < j < |s| ==> s[i].id != s[j].id
  }

  /** Every entry is filed under the id of the post it holds. */
  predicate WellKeyed(store: Store)
  {
    forall k :: k in store ==> store[k].id == k
  }

  /**
   * `_.mapKeys(posts, 'id')`: a left fold over the sequence that files each
   * post under its id, so that a later post overwrites an earlier one with
   * the same id.
   */
  function MapKeys(s: seq<Post>): (r: Store)
    ensures r.Keys == Ids(s)
    ensures forall k :: k in r ==> r[k].id == k && r[k] in s
    decreases |s|
  {
    if s == [] then map[]
    else
      var init, last := s[..|s| - 1], s[|s| - 1];
      assert Ids(s) == Ids(init) + {last.id} by {
        assert forall i :: 0 <= i < |init| ==> init[i] == s[i];
      }
      MapKeys(init)[last.id := last]
  }

  /** Each key of `_.mapKeys` holds the last post in the sequence with that id. */
  lemma {:induction false} MapKeysLastWins(s: seq<Post>, i: int)
    requires 0 <= i < |s| && LastWithItsId(s, i)
    ensures s[i].id in MapKeys(s) && MapKeys(s)[s[i].id] == s[i]
    decreases |s|
  {
    var init, last := s[..|s| - 1], s[|s| - 1];
    if i < |s| - 1 {
      assert last.id != s[i].id;
      assert init[i] == s[i];
      MapKeysLastWins(init, i);
    }
  }

  /** With distinct ids, every post of the sequence is stored under its own id. */
  lemma MapKeysUnique(s: seq<Post>, p: Post)
    requires UniqueIds(s) && p in s
    ensures p.id in MapKeys(s) && MapKeys(s)[p.id] == p
  {
  }

  /**
   * With distinct ids the order of the fetched sequence does not matter:
   * two sequences holding the same posts build the same store.
   */
  lemma MapKeysOrderIrrelevant(s: seq<Post>, t: seq<Post>)
    requires UniqueIds(s) && UniqueIds(t)
    requires multiset(s) == multiset(t)
    ensures MapKeys(s) == MapKeys(t)
  {
    var ms, mt := MapKeys(s), MapKeys(t);
    forall k | k in ms ensures k in mt && mt[k] == ms[k] {
      assert ms[k] in multiset(s);
      MapKeysUnique(t, ms[k]);
    }
    forall k | k in mt ensures k in ms {
      assert mt[k] in multiset(t);
      MapKeysUnique(s, mt[k]);
    }
  }

  /** The reducer: one state transition of the posts store. */
  function Reduce(state: Store, action: Action): (r: Store)
    // DELETE_POST: the id is gone and every remaining entry is untouched
    ensures action.Delete? ==>
      r.Keys == state.Keys - {action.id} &&
      forall k :: k in r ==> r[k] == state[k]
    // FETCH_POST: the post is stored under its id and nothing loaded before is lost
    ensures action.FetchOne? ==>
      r.Keys == state.Keys + {action.post.id} &&
      r[action.post.id] == action.post &&
      forall k :: k in state && k != action.post.id ==> r[k] == state[k]
    // FETCH_POSTS: exactly the fetched ids, each holding the last post with that id
    ensures action.FetchAll? ==>
      r.Keys == Ids(action.posts) &&
      forall i :: 0 <= i < |action.posts| && LastWithItsId(action.posts, i) ==>
        r[action.posts[i].id] == action.posts[i]
    // any other action type: the state is returned as it is
    ensures action.Other? ==> r == state
  {
    match action
    case Delete(id) => state - {id}
    case FetchOne(p) => state[p.id := p]
    case FetchAll(ps) =>
      assert forall i :: 0 <= i < |ps| && LastWithItsId(ps, i) ==> MapKeys(ps)[ps[i].id] == ps[i] by {
        forall i | 0 <= i < |ps| && LastWithItsId(ps, i)
          ensures ps[i].id in MapKeys(ps) && MapKeys(ps)[ps[i].id] == ps[i]
        {
          MapKeysLastWins(ps, i);
        }
      }
      MapKeys(ps)
    case Other => state
  }

  /** The reducer as exported: an omitted state (`undefined`) defaults to the empty store. */
  function ReduceOrInit(state: Option<Store>, action: Action): (r: Store)
    // a supplied state is reduced as it is
    ensures state.Some? ==> r == Reduce(state.value, action)
    // an omitted state behaves as the empty store
    ensures state.None? && (action.Delete? || action.Other?) ==> r == map[]
    ensures state.None? && action.FetchOne? ==> r == map[action.post.id := action.post]
    ensures state.None? && action.FetchAll? ==> r.Keys == Ids(action.posts)
  {
    match state
    case None => Reduce(map[], action)
    case Some(s) => Reduce(s, action)
  }

  /** Omitting the state is the same, for every action, as supplying the empty store. */
  lemma OmittedStateIsEmpty(action: Action)
    ensures ReduceOrInit(None, action) == ReduceOrInit(Some(map[]), action)
  {
  }

  /** The store after dispatching `actions` in order, starting from the initial state. */
  function Replay(actions: seq<Action>): Store
    decreases |actions|
  {
    if actions == [] then ReduceOrInit(None, Other)
    else Reduce(Replay(actions[..|actions| - 1]), actions[|actions| - 1])
  }

  /** Deleting an id that is not loaded is a no-op, not an error. */
  lemma DeleteAbsentIsNoOp(state: Store, id: Id)
    requires id !in state
    ensures Reduce(state, Delete(id)) == state
  {
  }

  /** Deleting the same id twice is the same as deleting it once. */
  lemma DeleteIdempotent(state: Store, id: Id)
    ensures Reduce(Reduce(state, Delete(id)), Delete(id)) == Reduce(state, Delete(id))
  {
  }

  /** Fetching the same post twice is the same as fetching it once. */
  lemma FetchOneIdempotent(state: Store, p: Post)
    ensures Reduce(Reduce(state, FetchOne(p)), FetchOne(p)) == Reduce(state, FetchOne(p))
  {
  }

  /**
   * FETCH_POSTS is a full replace: the result does not depend on the prior
   * state, so ids loaded before but absent from the response are dropped.
   */
  lemma FetchAllReplaces(s1: Store, s2: Store, ps: seq<Post>)
    ensures Reduce(s1, FetchAll(ps)) == Reduce(s2, FetchAll(ps))
    ensures forall k :: k in s1 && k !in Ids(ps) ==> k !in Reduce(s1, FetchAll(ps))
  {
  }

  /**
   * The race the optimistic delete allows: a FETCH_POSTS response applied
   * after a DELETE_POST brings the deleted post back if the response still
   * holds it.
   */
  lemma FetchAllAfterDeleteReintroduces(state: Store, id: Id, ps: seq<Post>)
    requires id in Ids(ps)
    ensures id !in Reduce(state, Delete(id))
    ensures id in Reduce(Reduce(state, Delete(id)), FetchAll(ps))
  {
  }

  /** Every transition keeps each entry filed under the id of its post. */
  lemma ReducePreservesWellKeyed(state: Store, action: Action)
    requires WellKeyed(state)
    ensures WellKeyed(Reduce(state, action))
  {
  }

  /** Every store reachable from the initial state is well keyed. */
  lemma {:induction false} ReplayWellKeyed(actions: seq<Action>)
    ensures WellKeyed(Replay(actions))
    decreases |actions|
  {
    if actions != [] {
      var init := actions[..|actions| - 1];
      ReplayWellKeyed(init);
      ReducePreservesWellKeyed(Replay(init), actions[|actions| - 1]);
    }
  }

  /** Fetching two posts into the empty store files both under their ids. */
  lemma FetchAllScenario(a: Post, b: Post)
    requires a.id == "1" && b.id == "2"
    ensures Reduce(map[], FetchAll([a, b])) == map["1" := a, "2" := b]
  {
    var ps := [a, b];
    assert LastWithItsId(ps, 0) && LastWithItsId(ps, 1);
    assert Ids(ps) == {"1", "2"} by {
      assert ps[0].id == "1" && ps[1].id == "2";
    }
  }

  /** Deleting one of two loaded posts keeps the other. */
  lemma DeleteScenario(a: Post, b: Post)
    ensures Reduce(map["1" := a, "2" := b], Delete("1")) == map["2" := b]
  {
  }
}
