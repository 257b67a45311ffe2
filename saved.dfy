/** The saved-posts page's list: each saved record's post, with its
    `creator` replaced by the current user's image, newest save first. */
module Saved {
  import opened Wrappers
  import Seqs

  /** A post field's value: the replacement creator, or any other value. */
  datatype Value = CreatorImage(imageUrl: Option<string>) | Other(text: string)

  /** A post document as a record of named fields. */
  type Post = map<string, Value>

  /** A save record; its `post` may be missing. */
  datatype SaveRecord = SaveRecord(post: Option<Post>)

  datatype User = User(save: Option<seq<SaveRecord>>, imageUrl: Option<string>)

  /** `{ ...savePost.post, creator: { imageUrl } }`: spreading a missing
      post gives no fields. */
  function SavedPost(r: SaveRecord, imageUrl: Option<string>): (p: Post)
    ensures "creator" in p && p["creator"] == CreatorImage(imageUrl)
    ensures r.post.Some? ==> p.Keys == r.post.value.Keys + {"creator"}
    ensures r.post.None? ==> p.Keys == {"creator"}
    ensures r.post.Some? ==> forall k :: k in r.post.value && k != "creator" ==> p[k] == r.post.value[k]
  {
    (if r.post.Some? then r.post.value else map[])["creator" := CreatorImage(imageUrl)]
  }

  /** `savePosts`: map each save record, then reverse the fresh array. */
  function SavePosts(currentUser: Option<User>): seq<Post>
  {
    var save := if currentUser.Some? && currentUser.value.save.Some? then currentUser.value.save.value else [];
    var imageUrl := if currentUser.Some? then currentUser.value.imageUrl else None;
    Seqs.Reverse(seq(|save|, i requires 0 <= i < |save| => SavedPost(save[i], imageUrl)))
  }

  /** One post per save record, the empty list included. */
  lemma SavePostsLength(u: User)
    requires u.save.Some?
    ensures |SavePosts(Some(u))| == |u.save.value|
    ensures u.save.value == [] ==> SavePosts(Some(u)) == []
  {
    var save := u.save.value;
    Seqs.ReverseLength(seq(|save|, j requires 0 <= j < |save| => SavedPost(save[j], u.imageUrl)));
  }

  /** Position `i` holds the post of the `i`-th save record from the end:
      newest first. */
  lemma SavePostsSpec(u: User, i: int)
    requires u.save.Some? && 0 <= i < |u.save.value|
    ensures |SavePosts(Some(u))| == |u.save.value|
    ensures SavePosts(Some(u))[i] == SavedPost(u.save.value[|u.save.value| - 1 - i], u.imageUrl)
  {
    var save := u.save.value;
    Seqs.ReverseAt(seq(|save|, j requires 0 <= j < |save| => SavedPost(save[j], u.imageUrl)), i);
  }

  /** None without a user or a save list. */
  lemma SavePostsMissing(currentUser: Option<User>)
    requires currentUser.None? || currentUser.value.save.None?
    ensures SavePosts(currentUser) == []
  {
  }
}
