/** The lab03 message models (labs/lab03/backend/models/message.go). */
module Lab03Models {
  import opened Wrappers

  datatype Message = Message(id: int, username: string, content: string, timestamp: int)

  datatype CreateMessageRequest = CreateMessageRequest(username: string, content: string)

  datatype UpdateMessageRequest = UpdateMessageRequest(content: string)

  /** NewMessage: the given id, username and content, stamped with `now`. */
  function NewMessage(id: int, username: string, content: string, now: int): (m: Message)
    ensures m.id == id && m.username == username && m.content == content && m.timestamp == now
  {
    Message(id, username, content, now)
  }

  /** CreateMessageRequest.Validate: the username is checked first, then the content. */
  function ValidateCreate(r: CreateMessageRequest): (err: Option<string>)
    ensures err == None <==> r.username != "" && r.content != ""
    ensures r.username == "" ==> err == Some("empty name error")
    ensures r.username != "" && r.content == "" ==> err == Some("empty content error")
  {
    if |r.username| == 0 then Some("empty name error")
    else if |r.content| == 0 then Some("empty content error")
    else None
  }

  /** UpdateMessageRequest.Validate: only the content is required. */
  function ValidateUpdate(r: UpdateMessageRequest): (err: Option<string>)
    ensures err == None <==> r.content != ""
    ensures err != None ==> err == Some("empty content error")
  {
    if |r.content| == 0 then Some("empty content error") else None
  }
}
