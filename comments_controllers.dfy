/** The comment handlers: each guards its action with an existence check and
    answers with a fixed status and envelope, or hands the error to `next`. */
module CommentsControllers {
  import opened Js
  import opened Handlers

  /** `getCommentsOnArticle`: checks the article exists before fetching its
      comments, and answers 200 `{ comments }` with exactly what the fetch
      returned (an empty list included). */
  function GetCommentsOnArticle(req: Request, b: Backend): (t: Trace)
    ensures var articleId := Get(req.params, "article_id");
      var guard := FetchArticleById(articleId);
      var fetch := FetchCommentsOnArticle(articleId);
      && |t| > 1 && t[0] == Invoke(guard) && Settled(t)
      && (Invoked(t, fetch) <==> b(guard).Resolved?)
      && (Invoked(t, fetch) ==> t[1] == Invoke(fetch))
      && (b(guard).Resolved? ==> |t| == 3)
      && (b(guard).Rejected? ==> t == [Invoke(guard), Next(b(guard).reason)])
      && (Responded(t) <==> b(guard).Resolved? && b(fetch).Resolved?)
      && (Responded(t) ==> t[|t| - 1] == Send(Num(200.0), Obj(map["comments" := b(fetch).value])))
      && (b(guard).Resolved? && b(fetch).Rejected? ==> t[|t| - 1] == Next(b(fetch).reason))
  {
    var articleId := Get(req.params, "article_id");
    Guarded(b, FetchArticleById(articleId), FetchCommentsOnArticle(articleId), Envelope(200.0, "comments"))
  }

  /** `postNewCommentOnArticle`: reads only `username` and `body` from the
      request body, checks the article exists, then creates the comment and
      answers 201 `{ comment }`. Nothing is created when the check fails. */
  function PostNewCommentOnArticle(req: Request, b: Backend): (t: Trace)
    ensures var articleId := Get(req.params, "article_id");
      var guard := FetchArticleById(articleId);
      var create := CreateCommentOnArticle(articleId, Get(req.body, "username"), Get(req.body, "body"));
      && |t| > 1 && t[0] == Invoke(guard) && Settled(t)
      && (Invoked(t, create) <==> b(guard).Resolved?)
      && (Invoked(t, create) ==> t[1] == Invoke(create))
      && (b(guard).Resolved? ==> |t| == 3)
      && (b(guard).Rejected? ==> t == [Invoke(guard), Next(b(guard).reason)])
      && (Responded(t) <==> b(guard).Resolved? && b(create).Resolved?)
      && (Responded(t) ==> t[|t| - 1] == Send(Num(201.0), Obj(map["comment" := b(create).value])))
      && (b(guard).Resolved? && b(create).Rejected? ==> t[|t| - 1] == Next(b(create).reason))
  {
    var articleId := Get(req.params, "article_id");
    var username, body := Get(req.body, "username"), Get(req.body, "body");
    Guarded(b, FetchArticleById(articleId), CreateCommentOnArticle(articleId, username, body), Envelope(201.0, "comment"))
  }

  /** `deleteCommentById`: checks the comment exists before removing it, and
      answers with the bare status 204 (no body). Nothing is removed when the
      check fails. */
  function DeleteCommentById(req: Request, b: Backend): (t: Trace)
    ensures var commentId := Get(req.params, "comment_id");
      var guard := CheckCommentExists(commentId);
      var remove := RemoveCommentById(commentId);
      && |t| > 1 && t[0] == Invoke(guard) && Settled(t)
      && (Invoked(t, remove) <==> b(guard).Resolved?)
      && (Invoked(t, remove) ==> t[1] == Invoke(remove))
      && (b(guard).Resolved? ==> |t| == 3)
      && (b(guard).Rejected? ==> t == [Invoke(guard), Next(b(guard).reason)])
      && (Responded(t) <==> b(guard).Resolved? && b(remove).Resolved?)
      && (Responded(t) ==> t[|t| - 1] == SendStatus(Num(204.0)))
      && (b(guard).Resolved? && b(remove).Rejected? ==> t[|t| - 1] == Next(b(remove).reason))
  {
    var commentId := Get(req.params, "comment_id");
    Guarded(b, CheckCommentExists(commentId), RemoveCommentById(commentId), NoContent(204.0))
  }

  /** Keys of the request body other than `username` and `body` change
      nothing: two requests that agree on the article id and on those two
      fields are handled identically. */
  lemma PostIgnoresOtherBodyKeys(req1: Request, req2: Request, b: Backend)
    requires Get(req1.params, "article_id") == Get(req2.params, "article_id")
    requires Get(req1.body, "username") == Get(req2.body, "username")
    requires Get(req1.body, "body") == Get(req2.body, "body")
    ensures PostNewCommentOnArticle(req1, b) == PostNewCommentOnArticle(req2, b)
  {
  }

  /** Every comment handler ends the request exactly once: either it
      responds, or it hands the error on to `next` and sends nothing. */
  lemma CommentHandlersEndOnce(req: Request, b: Backend)
    ensures var ts := [GetCommentsOnArticle(req, b), PostNewCommentOnArticle(req, b), DeleteCommentById(req, b)];
      forall i :: 0 <= i < |ts| ==> Settled(ts[i]) && Responded(ts[i]) != Forwarded(ts[i])
  {
    SettledShape(GetCommentsOnArticle(req, b));
    SettledShape(PostNewCommentOnArticle(req, b));
    SettledShape(DeleteCommentById(req, b));
  }
}
