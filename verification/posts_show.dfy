/**
 * The detail view's bindings to the store (src/components/posts_show.js):
 * `mapStateToProps`, which projects one post out of the store by the id in
 * the route, and the branch of `render` that shows a loading message while
 * that post is absent.
 */
module PostsShow {
  import opened Wrappers
  import opened PostsReducer

  /** The application state: the posts slice and whatever other slices sit beside it. */
  datatype RootState<Rest> = RootState(posts: Store, rest: Rest)

  /** The component's own props: the `:id` parameter of the matched route. */
  datatype OwnProps = OwnProps(routeId: Id)

  /** The props `mapStateToProps` hands to the component; `None` is `undefined`. */
  datatype Props = Props(post: Option<Post>)

  /** What `render` draws. */
  datatype View = Loading | Show(post: Post)

  /** `posts[id]` on a JavaScript object: the record, or `undefined` when the key is absent. */
  function Get(store: Store, id: Id): Option<Post>
  {
    if id in store then Some(store[id]) else None
  }

  /** `mapStateToProps`: reads the posts slice at the route's id. */
  function MapStateToProps<Rest>(state: RootState<Rest>, ownProps: OwnProps): (r: Props)
    ensures r.post.Some? <==> ownProps.routeId in state.posts
    ensures r.post.Some? ==> r.post.value == state.posts[ownProps.routeId]
    ensures WellKeyed(state.posts) && r.post.Some? ==> r.post.value.id == ownProps.routeId
  {
    Props(Get(state.posts, ownProps.routeId))
  }

  /** `render`: a post object is always truthy, so `!post` holds only when it is absent. */
  function Render(props: Props): (v: View)
    ensures v.Loading? <==> props.post.None?
    ensures v.Show? ==> props.post == Some(v.post)
  {
    match props.post
    case None => Loading
    case Some(p) => Show(p)
  }

  /** The detail view of a state, as the connected component draws it. */
  function DetailView<Rest>(state: RootState<Rest>, ownProps: OwnProps): View
  {
    Render(MapStateToProps(state, ownProps))
  }

  /** The view shows "Loading..." exactly when the route's id is not in the store. */
  lemma LoadingIffAbsent<Rest>(state: RootState<Rest>, ownProps: OwnProps)
    ensures DetailView(state, ownProps).Loading? <==> ownProps.routeId !in state.posts
    ensures ownProps.routeId in state.posts ==>
      DetailView(state, ownProps) == Show(state.posts[ownProps.routeId])
  {
  }

  /** Only the posts slice matters: the other slices never change the projection. */
  lemma PostsSliceOnly<Rest>(posts: Store, rest1: Rest, rest2: Rest, ownProps: OwnProps)
    ensures MapStateToProps(RootState(posts, rest1), ownProps) ==
            MapStateToProps(RootState(posts, rest2), ownProps)
  {
  }

  /** After FETCH_POST of `p`, the detail page for `p.id` shows `p`. */
  lemma ShowAfterFetchOne<Rest>(posts: Store, rest: Rest, p: Post)
    ensures DetailView(RootState(Reduce(posts, FetchOne(p)), rest), OwnProps(p.id)) == Show(p)
  {
  }

  /** After DELETE_POST of `id`, the detail page for `id` is back to loading. */
  lemma LoadingAfterDelete<Rest>(posts: Store, rest: Rest, id: Id)
    ensures DetailView(RootState(Reduce(posts, Delete(id)), rest), OwnProps(id)) == Loading
  {
  }

  /** After FETCH_POSTS, the detail page for a fetched id shows the last post with that id. */
  lemma ShowAfterFetchAll<Rest>(posts: Store, rest: Rest, ps: seq<Post>, i: int)
    requires 0 <= i < |ps| && LastWithItsId(ps, i)
    ensures DetailView(RootState(Reduce(posts, FetchAll(ps)), rest), OwnProps(ps[i].id)) == Show(ps[i])
  {
  }

  /**
   * In every state reachable by dispatching actions from the initial one,
   * the post the detail page shows carries the id of the route.
   */
  lemma ShownPostMatchesRoute<Rest>(actions: seq<Action>, rest: Rest, ownProps: OwnProps)
    ensures DetailView(RootState(Replay(actions), rest), ownProps).Show? ==>
      DetailView(RootState(Replay(actions), rest), ownProps).post.id == ownProps.routeId
  {
    ReplayWellKeyed(actions);
  }
}
