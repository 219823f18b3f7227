# Posts store of a React/Redux blog client, in Dafny

This project models the logic at the centre of a small blog client:

- **The posts reducer** (`PostsReducer`, reducer_posts.dfy). This is the client-side entity store. It maps each post id to a post record and is updated by three actions:
  - `FETCH_POSTS` (`FetchAll`) replaces the whole store with the fetched list, keyed by id. When ids repeat, the later post wins.
  - `FETCH_POST` (`FetchOne`) inserts or overwrites one entry.
  - `DELETE_POST` (`Delete`) removes one id. This is the optimistic delete: it is a no-op when the id is absent.
  - Any other action type (`Other`) leaves the store as it is.

  The reducer is a function because every arm builds a new value. `_.mapKeys` is modelled as a left fold, `MapKeys`. The default parameter `state = {}` is modelled by `ReduceOrInit`, whose omitted state is `None`. `Replay` dispatches a sequence of actions, starting from the initial state.
- **The create-form validator** (`PostsNew`, posts_new.dfy). `Validate` builds the error object the way `validate` does: it starts empty and makes three conditional assignments. It is proved equal to `ExpectedErrors`, which holds one message per blank required field. Form values are a `map<string, string>`. A missing key is `undefined`. A field is falsy when its key is missing or it holds the empty string.
- **The detail view's store bindings** (`PostsShow`, posts_show.dfy). `MapStateToProps` looks up the route's id in the posts slice. `Render` shows `Loading` exactly when that lookup is absent. The lookup reads the store's own keys only; see "Left out" for inherited property names. The lemmas connect these two to the reducer. For example, after `FetchOne(p)` the page for `p.id` shows `p`. After `Delete(id)` the page for `id` is loading. In every reachable state, a shown post carries the route's id.

Ids are modelled as `string`, since they are the keys of a JavaScript object. The numeric `id` filed by `_.mapKeys` and the string route parameter therefore address the same key.

## Model

| member | source | states |
|---|---|---|
| PostsReducer.Reduce | src/reducers/reducer_posts.js:4-36 | Delete removes exactly that key and leaves every other entry unchanged. FetchOne stores the post under its id and keeps every other entry. FetchAll's keys are exactly the fetched ids, and each key holds the last post with that id. Any other action returns the state unchanged. |
| PostsReducer.MapKeys | src/reducers/reducer_posts.js:31-33 | `_.mapKeys(posts, 'id')`: the keys are exactly the ids of the sequence, and each value is a post of the sequence filed under its own id. |
| PostsReducer.MapKeysLastWins | src/reducers/reducer_posts.js:33 | When ids repeat, the store holds the last post in the sequence with that id. |
| PostsReducer.MapKeysUnique | src/reducers/reducer_posts.js:33 | With distinct ids, every fetched post is stored under its own id. |
| PostsReducer.MapKeysOrderIrrelevant | src/reducers/reducer_posts.js:32-33 | With distinct ids, two sequences holding the same posts in any order build the same store. |
| PostsReducer.ReduceOrInit | src/reducers/reducer_posts.js:4 | A supplied state is reduced as it is. An omitted state starts from the empty store: an init, unknown or delete action then yields the empty store, FetchOne yields a one-entry store, and FetchAll yields exactly the fetched ids. |
| PostsReducer.OmittedStateIsEmpty | src/reducers/reducer_posts.js:4 | For every action, omitting the state gives the same store as supplying the empty store. |
| PostsReducer.DeleteAbsentIsNoOp | src/reducers/reducer_posts.js:14 | Deleting an id that is not loaded returns a store equal to the input. |
| PostsReducer.DeleteIdempotent | src/reducers/reducer_posts.js:14 | Deleting the same id twice equals deleting it once. |
| PostsReducer.FetchOneIdempotent | src/reducers/reducer_posts.js:30 | Fetching the same post twice equals fetching it once. |
| PostsReducer.FetchAllReplaces | src/reducers/reducer_posts.js:33 | The FetchAll result does not depend on the prior store. An id loaded before but absent from the response is dropped. |
| PostsReducer.FetchAllAfterDeleteReintroduces | src/reducers/reducer_posts.js:6-33 | A FetchAll applied after a Delete brings the deleted id back when the response still holds it. This is the race the optimistic delete allows. |
| PostsReducer.ReducePreservesWellKeyed | src/reducers/reducer_posts.js:14-33 | Every transition keeps each entry filed under the id of the post it holds. |
| PostsReducer.ReplayWellKeyed | src/reducers/reducer_posts.js:4-36 | Every store reachable from the initial state by dispatching actions is well keyed. |
| PostsReducer.FetchAllScenario | src/reducers/reducer_posts.js:31-33 | Fetching posts with ids 1 and 2 into the empty store gives the store {1: a, 2: b}. |
| PostsReducer.DeleteScenario | src/reducers/reducer_posts.js:14 | Deleting id 1 from {1: a, 2: b} gives {2: b}. |
| PostsNew.Validate | src/components/posts_new.js:100-120 | The three conditional assignments build exactly one message per blank required field. The result is empty iff all three fields hold text. |
| PostsNew.ErrorKeysAreFields | src/components/posts_new.js:100-119 | The error keys are always a subset of {title, categories, content}. |
| PostsNew.ErrorIffBlank | src/components/posts_new.js:107-115 | A field's key is present iff the field is missing or empty. The messages are exactly "Enter a title", "Enter some categories" and "Enter some content please". |
| PostsNew.NoErrorsIffReady | src/components/posts_new.js:117-119 | The error map is empty iff every required field holds text. That is the ready-to-submit condition. |
| PostsNew.FieldsIndependent | src/components/posts_new.js:107-115 | Setting or removing one field never adds, removes or changes another field's error. |
| PostsNew.ExtraKeysIgnored | src/components/posts_new.js:107-115 | Keys of the values other than the three fields do not affect the result. |
| PostsNew.ValidateScenario | src/components/posts_new.js:107-119 | A blank title alone gives {title: "Enter a title"}. Three filled fields give {}. |
| PostsShow.MapStateToProps | src/components/posts_show.js:59-66 | The projected post is present iff the route's id is a key of the posts slice. When present it equals that entry, and in a well-keyed store it carries the route's id. |
| PostsShow.Render | src/components/posts_show.js:28-32 | The view is Loading exactly when the post is absent. Otherwise it shows that post. |
| PostsShow.LoadingIffAbsent | src/components/posts_show.js:24-32 | The detail page loads iff the route's id is not in the store. Otherwise it shows the stored post. |
| PostsShow.PostsSliceOnly | src/components/posts_show.js:59-65 | The projection reads only the posts slice and the route id. Other slices of state never change it. |
| PostsShow.ShowAfterFetchOne | src/components/posts_show.js:64 | After FetchOne(p), the page for p.id shows p. |
| PostsShow.LoadingAfterDelete | src/components/posts_show.js:28-32 | After Delete(id), the page for id is loading. |
| PostsShow.ShowAfterFetchAll | src/components/posts_show.js:64 | After FetchAll(ps), the page for a fetched id shows the last post with that id. |
| PostsShow.ShownPostMatchesRoute | src/components/posts_show.js:64 | In every state reachable from the initial one, a shown post carries the route's id. |

`DetailView` and `Replay` are composition helpers. `DetailView` feeds `MapStateToProps` into `Render`, as `connect(mapStateToProps, …)(PostsShow)` does at src/components/posts_show.js:68. `Replay` applies actions one after another, as Redux's dispatch does. Neither has a contract of its own; the lemmas above state what matters about them.

The projection is read-only by construction. `MapStateToProps` and `Render` are functions over values, so they cannot change the store.

## Left out

- Rendering: JSX, `renderField`, the CSS class choice and the `Link` and button markup are UI. Only the loading-or-show decision of `render` is modelled.
- Library wiring: `reduxForm(...)`, `connect(...)` and `handleSubmit` wrap libraries whose source is not part of this model.
- Action creators and HTTP: `createPost`, `fetchPost` and `deletePost` are not part of this model. Only the payloads they dispatch are modelled, as `Action` variants. When a delete is dispatched relative to its request, and how in-flight requests race, are timing concerns. Only the order in which actions are applied is modelled, by `Replay`.
- The axios envelope: `action.payload.data` is modelled directly as the payload.
- Navigation and lifecycle: `history.push('/')` and `componentDidMount` are side effects.
- Lodash details: `_.omit` is map key removal. `_.mapKeys` is a left fold. Deep paths in dotted keys and JavaScript's coercion between string and number keys are not modelled. One id type is used throughout.
- Post fields other than id, title, categories and content are not modelled. The reducer never inspects them.
- PostsShow.Get, PostsShow.MapStateToProps, PostsShow.LoadingIffAbsent, PostsShow.ShownPostMatchesRoute: the model looks up own keys of the store only. In the source, `posts[id]` is a JavaScript property read, so a route id that names a property inherited from `Object.prototype` (`constructor`, `toString`, `__proto__`) yields a truthy function or object. The source then draws the post branch with an undefined title and id, where the model shows `Loading`. Inherited prototype properties are not modelled, so the loading rule and the route-id guarantee hold only for ids that are not such names.
- The listing view's projection of the store lives in a component that is not part of this model.
