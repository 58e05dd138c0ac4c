/** The lab04 post model's validation and request conversion
    (labs/lab04/backend/models/post.go). */
module Lab04Post {
  import opened Wrappers
  import opened Strconv

  datatype Post = Post(id: int, userID: int, title: string, content: string, published: bool,
                       createdAt: int, updatedAt: int)

  datatype CreatePostRequest = CreatePostRequest(userID: int, title: string, content: string, published: bool)

  const MinTitleLength: nat := 5
  const MinID: int := 1

  /** defaultPostValidate: the title length first, then content for a published post, then
      the id; the post passes exactly when all three hold. Unpublished drafts may be empty. */
  function PostError(title: string, published: bool, content: string, id: int): (r: Option<string>)
    ensures r == None <==> |title| >= MinTitleLength && (published ==> content != []) && id >= MinID
    ensures |title| < MinTitleLength ==> r == Some("invalid title: " + title)
    ensures |title| >= MinTitleLength && published && content == [] ==> r == Some("empty content")
    ensures |title| >= MinTitleLength && (published ==> content != []) && id < MinID ==>
              r == Some("invalid ID: " + Itoa(id))
  {
    if |title| < MinTitleLength then Some("invalid title: " + title)
    else if published && |content| == 0 then Some("empty content")
    else if id < MinID then Some("invalid ID: " + Itoa(id))
    else None
  }

  /** Post.Validate: the id checked is the author's (`userID`), not the post's own. */
  function ValidatePost(p: Post): (r: Option<string>)
    ensures r == None <==> |p.title| >= MinTitleLength && (p.published ==> p.content != []) && p.userID >= MinID
  {
    PostError(p.title, p.published, p.content, p.userID)
  }

  /** CreatePostRequest.Validate. */
  function ValidateCreatePost(req: CreatePostRequest): (r: Option<string>)
    ensures r == None <==> |req.title| >= MinTitleLength && (req.published ==> req.content != []) && req.userID >= MinID
  {
    PostError(req.title, req.published, req.content, req.userID)
  }

  /** ToPost: the request's four fields unchanged, both timestamps `now`, the id left zero
      for the database to assign. */
  function ToPost(req: CreatePostRequest, now: int): (p: Post)
    ensures p.userID == req.userID && p.title == req.title
    ensures p.content == req.content && p.published == req.published
    ensures p.createdAt == now && p.updatedAt == now && p.id == 0
  {
    Post(0, req.userID, req.title, req.content, req.published, now, now)
  }

  /** A request and the post made from it get the same validation answer, message included. */
  lemma ToPostKeepsValidation(req: CreatePostRequest, now: int)
    ensures ValidatePost(ToPost(req, now)) == ValidateCreatePost(req)
  {
  }

  /** A post and a request with the same fields get the same answer. */
  lemma ValidateAgree(p: Post, req: CreatePostRequest)
    requires p.userID == req.userID && p.title == req.title
    requires p.content == req.content && p.published == req.published
    ensures ValidatePost(p) == ValidateCreatePost(req)
  {
  }
}
