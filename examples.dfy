/**
 * Examples from the repository's services: the whole Blogger spec, walked
 * to its triples and methods; Drive's nested replies resource; Calendar's
 * `users/me/settings` resource; and requests sent by YouTube's `videos`
 * and `thumbnails` methods, from descriptors built by hand.
 */
module ServiceExamples {
  import opened JsValues
  import opened ResourceUrls
  import opened Requests
  import opened Service

  const BlogComments := Spec([Resource("comments", [Act("list"), Act("get")])])

  const BlogResources := Spec([
    Resource("pages", [Act("list"), Act("get")]),
    Resource("posts", [Act("list"), Act("get"), Act("insert"), Act("update"), Act("delete"), Nested(BlogComments)])
  ])

  /** The Blogger spec: users, and blogs with pages and posts nested in
      them, and comments nested in posts. */
  const BloggerSpec := Spec([
    Resource("users", [Act("get")]),
    Resource("blogs", [Act("get"), Nested(BlogResources)])
  ])

  lemma BlogCommentsRegs()
    ensures SpecRegs(BlogComments, ["blogs", "posts"])
         == [Reg("list", "comments", ["blogs", "posts"]), Reg("get", "comments", ["blogs", "posts"])]
  {
    var r := BlogComments.resources[0];
    assert EntriesRegs(r, 1, ["blogs", "posts"]) == [Reg("list", "comments", ["blogs", "posts"])];
  }

  /** The posts resource: five actions, then its nested comments. */
  lemma BlogPostsRegs()
    ensures var p: seq<string> := ["blogs"];
      EntriesRegs(BlogResources.resources[1], 6, p) == [
      Reg("list", "posts", p), Reg("get", "posts", p), Reg("insert", "posts", p),
      Reg("update", "posts", p), Reg("delete", "posts", p),
      Reg("list", "comments", ["blogs", "posts"]), Reg("get", "comments", ["blogs", "posts"])]
  {
    var posts := BlogResources.resources[1];
    var p: seq<string> := ["blogs"];
    assert EntriesRegs(posts, 1, p) == [Reg("list", "posts", p)];
    assert EntriesRegs(posts, 2, p) == [Reg("list", "posts", p), Reg("get", "posts", p)];
    assert EntriesRegs(posts, 3, p) == [Reg("list", "posts", p), Reg("get", "posts", p), Reg("insert", "posts", p)];
    assert EntriesRegs(posts, 4, p) == [Reg("list", "posts", p), Reg("get", "posts", p), Reg("insert", "posts", p),
                                        Reg("update", "posts", p)];
    assert EntriesRegs(posts, 5, p) == [Reg("list", "posts", p), Reg("get", "posts", p), Reg("insert", "posts", p),
                                        Reg("update", "posts", p), Reg("delete", "posts", p)];
    assert p + ["posts"] == ["blogs", "posts"];
    BlogCommentsRegs();
    assert EntryRegs("posts", Nested(BlogComments), p) == SpecRegs(BlogComments, ["blogs", "posts"]);
  }

  lemma BlogResourcesRegs()
    ensures SpecRegs(BlogResources, ["blogs"]) == [
      Reg("list", "pages", ["blogs"]), Reg("get", "pages", ["blogs"]),
      Reg("list", "posts", ["blogs"]), Reg("get", "posts", ["blogs"]),
      Reg("insert", "posts", ["blogs"]), Reg("update", "posts", ["blogs"]),
      Reg("delete", "posts", ["blogs"]),
      Reg("list", "comments", ["blogs", "posts"]), Reg("get", "comments", ["blogs", "posts"])]
  {
    var pages := BlogResources.resources[0];
    var posts := BlogResources.resources[1];
    var p: seq<string> := ["blogs"];
    assert EntriesRegs(pages, 1, p) == [Reg("list", "pages", p)];
    assert EntriesRegs(pages, 2, p) == [Reg("list", "pages", p), Reg("get", "pages", p)];
    BlogPostsRegs();
    assert ResourcesRegs(BlogResources, 1, p) == EntriesRegs(pages, 2, p);
    assert ResourcesRegs(BlogResources, 2, p) == EntriesRegs(pages, 2, p) + EntriesRegs(posts, 6, p);
  }

  /** Walking the Blogger spec meets every action at every depth, each
      with the chain of resources it is nested in. */
  lemma BloggerRegs()
    ensures SpecRegs(BloggerSpec, []) == [
      Reg("get", "users", []), Reg("get", "blogs", []),
      Reg("list", "pages", ["blogs"]), Reg("get", "pages", ["blogs"]),
      Reg("list", "posts", ["blogs"]), Reg("get", "posts", ["blogs"]),
      Reg("insert", "posts", ["blogs"]), Reg("update", "posts", ["blogs"]),
      Reg("delete", "posts", ["blogs"]),
      Reg("list", "comments", ["blogs", "posts"]), Reg("get", "comments", ["blogs", "posts"])]
  {
    var users := BloggerSpec.resources[0];
    var blogs := BloggerSpec.resources[1];
    var none: seq<string> := [];
    assert EntriesRegs(users, 1, none) == [Reg("get", "users", none)];
    assert EntriesRegs(blogs, 1, none) == [Reg("get", "blogs", none)];
    assert none + ["blogs"] == ["blogs"];
    BlogResourcesRegs();
    assert EntriesRegs(blogs, 2, none) == [Reg("get", "blogs", none)] + SpecRegs(BlogResources, ["blogs"]);
    assert ResourcesRegs(BloggerSpec, 1, none) == [Reg("get", "users", none)];
    assert ResourcesRegs(BloggerSpec, 2, none) == [Reg("get", "users", none)] + EntriesRegs(blogs, 2, none);
  }

  lemma CommentsName()
    ensures NameOf(Reg("get", "comments", ["blogs", "posts"])) == "getComments"
  {
    MethodNames.LastSegmentOfPlainName("comments");
    assert MethodNames.Capitalize("comments") == "Comments";
  }

  /** Every action of the Blogger spec names a request builder. */
  lemma BloggerAllKnown()
    ensures AllKnown(SpecRegs(BloggerSpec, []))
  {
    BloggerRegs();
    var regs := SpecRegs(BloggerSpec, []);
    forall i | 0 <= i < |regs| ensures IsKnown(regs[i]) {
      assert regs[i].action in {"get", "list", "insert", "update", "delete"};
    }
  }

  /** The Blogger walk succeeds, and the method it registers as
      `getComments` is the get builder for `comments` under the chain
      `blogs`, `posts`. */
  lemma BloggerGetCommentsMethod()
    ensures AllKnown(SpecRegs(BloggerSpec, []))
    ensures var m := Register(map[], SpecRegs(BloggerSpec, []));
      "getComments" in m && m["getComments"] == Descriptor(Get, "comments", ["blogs", "posts"])
  {
    BloggerAllKnown();
    BloggerRegs();
    var regs := SpecRegs(BloggerSpec, []);
    var r := Reg("get", "comments", ["blogs", "posts"]);
    assert regs[10] == r;
    CommentsName();
    RegisterLastWins(map[], regs, 10);
  }

  /** Blogger's `getComments(blogId, postId, commentId)` reads
      `blogs/{blogId}/posts/{postId}/comments/{commentId}`. */
  lemma BloggerGetComments(base: string, blogId: string, postId: string, commentId: string)
    ensures Invoke(Descriptor(Get, "comments", ["blogs", "posts"]), base,
                   [Str(blogId), Str(postId), Str(commentId)])
         == Envelope(GET, base
                          + ("blogs" + "/" + blogId + "/" + "posts" + "/" + postId + "/" + "comments" + "/" + commentId), Undef, Null)
  {
    var args := [Str(blogId), Str(postId), Str(commentId)];
    AncestorPathTwo("blogs", "posts", args);
    var head := "blogs" + "/" + blogId + "/" + "posts" + "/" + postId + "/" + "comments";
    assert PathOf(args, ["blogs", "posts"], "comments") == head + ("/" + commentId);
  }

  /** The Blogger service's URL. */
  lemma BloggerBaseUrl()
    ensures BaseUrl("blogger", "v3") == "https://www.googleapis.com/blogger/v3/"
  {
    BaseUrlShape("blogger", "v3");
  }

  /** Blogger's `listPosts(blogId)` reads the collection below one blog. */
  lemma BloggerListPosts(base: string, blogId: string)
    ensures Invoke(Descriptor(List, "posts", ["blogs"]), base, [Str(blogId)])
         == Envelope(GET, base + ("blogs" + "/" + blogId + "/" + "posts"), Undef, Null)
  {
    assert ["blogs"][..0] == [];
    assert AncestorPath(["blogs"], [Str(blogId)]) == "blogs/" + blogId + "/";
  }

  const FileReplies := Spec([Resource("replies", [Act("get"), Act("list"), Act("insert"), Act("update"), Act("delete"), Act("patch")])])

  /** Drive's `insertReplies(fileId, commentId, body, params)`: two ancestor
      ids, no instance id (the third argument is an object), the body and
      the bag split off the end. */
  lemma DriveInsertReplies(base: string, fileId: string, commentId: string, body: map<string, string>, bag: map<string, string>)
    ensures Invoke(Descriptor(Insert, "replies", ["files", "comments"]), base,
                   [Str(fileId), Str(commentId), Obj(body), Obj(bag)])
         == Envelope(POST, base + ("files" + "/" + fileId + "/" + "comments" + "/" + commentId + "/" + "replies"),
                     Obj(body), Obj(bag))
  {
    var args := [Str(fileId), Str(commentId), Obj(body), Obj(bag)];
    AncestorPathTwo("files", "comments", args);
    assert IdSuffix(args, 2) == "";
    assert WriteSplit(args) == Payload(Obj(body), Obj(bag));
  }

  /** The nested replies spec registers all six actions under the chain
      `files`, `comments`. */
  lemma DriveRepliesRegs()
    ensures var p: seq<string> := ["files", "comments"];
      SpecRegs(FileReplies, p)
      == [Reg("get", "replies", p), Reg("list", "replies", p), Reg("insert", "replies", p),
          Reg("update", "replies", p), Reg("delete", "replies", p), Reg("patch", "replies", p)]
  {
    var r := FileReplies.resources[0];
    var p: seq<string> := ["files", "comments"];
    assert EntriesRegs(r, 1, p) == [Reg("get", "replies", p)];
    assert EntriesRegs(r, 2, p) == [Reg("get", "replies", p), Reg("list", "replies", p)];
    assert EntriesRegs(r, 3, p) == [Reg("get", "replies", p), Reg("list", "replies", p), Reg("insert", "replies", p)];
    assert EntriesRegs(r, 4, p) == [Reg("get", "replies", p), Reg("list", "replies", p), Reg("insert", "replies", p),
                                    Reg("update", "replies", p)];
    assert EntriesRegs(r, 5, p) == [Reg("get", "replies", p), Reg("list", "replies", p), Reg("insert", "replies", p),
                                    Reg("update", "replies", p), Reg("delete", "replies", p)];
  }

  /** Drive's reply methods are named after the leaf resource only. */
  lemma DriveReplyNames()
    ensures NameOf(Reg("get", "replies", ["files", "comments"])) == "getReplies"
    ensures NameOf(Reg("update", "replies", ["files", "comments"])) == "updateReplies"
  {
    MethodNames.LastSegmentOfPlainName("replies");
    assert MethodNames.Capitalize("replies") == "Replies";
  }

  /** YouTube's `updateVideos(data, params)`, as documented: the first
      argument is an object, so no instance id is pushed and the request
      goes to the collection with that body and bag. */
  lemma YoutubeUpdateVideos(base: string, data: map<string, string>, bag: map<string, string>)
    ensures Invoke(Descriptor(Update, "videos", []), base, [Obj(data), Obj(bag)])
         == Envelope(PUT, base + "videos", Obj(data), Obj(bag))
  {
  }

  /** The update closure called with a string id and one body: the id is
      the instance id, the single trailing object the body, and no bag is
      sent. */
  lemma YoutubeUpdateVideoById(base: string, id: string, body: map<string, string>)
    ensures Invoke(Descriptor(Update, "videos", []), base, [Str(id), Obj(body)])
         == Envelope(PUT, base + ("videos" + "/" + id), Obj(body), Undef)
  {
  }

  /** YouTube's `insertVideos(body, params)` posts to the collection. */
  lemma YoutubeInsertVideos(base: string, body: map<string, string>, bag: map<string, string>)
    ensures Invoke(Descriptor(Insert, "videos", []), base, [Obj(body), Obj(bag)])
         == Envelope(POST, base + "videos", Obj(body), Obj(bag))
  {
  }

  /** YouTube's `setThumbnails(params)` posts to `thumbnails/set`. */
  lemma YoutubeSetThumbnails(base: string, bag: map<string, string>)
    ensures Invoke(Descriptor(Set, "thumbnails", []), base, [Obj(bag)])
         == Envelope(POST, base + "thumbnails" + "/set", Undef, Obj(bag))
  {
  }

  /** Calendar's `users/me/settings` resource is one resource, not a
      nested one: its triples carry no ancestor. */
  lemma CalendarSettingsRegs()
    ensures SpecRegs(Spec([Resource("users/me/settings", [Act("list"), Act("get")])]), [])
         == [Reg("list", "users/me/settings", []), Reg("get", "users/me/settings", [])]
  {
    var r := Resource("users/me/settings", [Act("list"), Act("get")]);
    assert EntriesRegs(r, 1, []) == [Reg("list", "users/me/settings", [])];
  }

  /** Its methods are named after `settings` alone. */
  lemma CalendarSettingsName()
    ensures NameOf(Reg("get", "users/me" + "/" + "settings", [])) == "get" + "Settings"
  {
    MethodNames.MethodNameOfPath("get", "users/me", "settings");
    assert MethodNames.Capitalize("settings") == "Settings";
  }

  /** Its path is spliced into the URL whole, before the instance id. */
  lemma CalendarGetSettings(base: string, setting: string)
    ensures Invoke(Descriptor(Get, "users/me/settings", []), base, [Str(setting)])
         == Envelope(GET, base + ("users/me/settings" + "/" + setting), Undef, Null)
  {
  }
}
