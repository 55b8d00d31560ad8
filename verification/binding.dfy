/** The request/answer layer of src/binding.rs: the request each operation
    sends, the interpretation of the answer envelope, and the shape check each
    operation applies to the result. */
module Binding {
  import opened Wrappers
  import opened JsonValue
  import opened GprError
  import opened Answers

  /** The operation ids of the engine's dispatcher. */
  const LoadOp: int32 := 1
  const GetAttributeOp: int32 := 8

  /** A call to the dispatcher: an operation id and a JSON body. */
  datatype Request = Request(op: int32, body: Value)

  /** What a request asks for, as the engine reads it back from the operation
      id and the body's members. */
  datatype Query =
    | LoadQuery(filename: string)
    | AttributeQuery(treeId: string, viewId: string, name: string)

  function ReadQuery(req: Request): Option<Query> {
    if req.op == LoadOp then
      var filename :- Member(req.body, "filename");
      var filename :- AsString(filename);
      Some(LoadQuery(filename))
    else if req.op == GetAttributeOp then
      var treeId :- Member(req.body, "tree_id");
      var treeId :- AsString(treeId);
      var viewId :- Member(req.body, "view_id");
      var viewId :- AsString(viewId);
      var name :- Member(req.body, "name");
      var name :- AsString(name);
      Some(AttributeQuery(treeId, viewId, name))
    else None
  }

  /** The request of `Tree::load`: operation 1 with the single member
      `filename`. */
  function LoadRequest(file: string): (r: Request)
    ensures r.op == 1
    ensures r.body.JObject? && r.body.fields.Keys == {"filename"}
    ensures ReadQuery(r) == Some(LoadQuery(file))
  {
    Request(LoadOp, JObject(map["filename" := JString(file)]))
  }

  /** The request of `Tree::get_attribute`: operation 8 naming the tree, its
      root view, and the attribute name as given. */
  function AttributeRequest(tree: Tree, name: string): (r: Request)
    ensures r.op == 8
    ensures r.body.JObject? && r.body.fields.Keys == {"tree_id", "view_id", "name"}
    ensures ReadQuery(r) == Some(AttributeQuery(tree.id, tree.rootView, name))
  {
    Request(GetAttributeOp, JObject(map[
      "tree_id" := JString(tree.id),
      "view_id" := JString(tree.rootView),
      "name" := JString(name)]))
  }

  /** The foreign side of one call, as two functions. `exchange` stands for
      writing the request as text, `gpr2_request`, and taking ownership of the
      answer string; it yields `None` when the answer is not valid UTF-8. The
      status returned by the C function is ignored, so it does not appear.
      `parse` stands for serde_json's reading of the answer text; it yields
      `None` on malformed JSON. */
  datatype Channel = Channel(exchange: Request -> Option<string>, parse: string -> Option<Value>)

  /** `raw_request` followed by `serde_json::from_str::<Answer>`: the raw
      answer text and the envelope decoded from it. */
  function Receive(ch: Channel, req: Request): (r: Result<(string, Answer), Error>)
    ensures r.Err? ==> r.error == Cstring || r.error == Json
    ensures r.Err? && r.error == Cstring <==> ch.exchange(req).None?
    ensures r.Ok? ==> ch.exchange(req) == Some(r.value.0)
    ensures ch.exchange(req).Some? ==>
              (r.Ok? <==> ch.parse(ch.exchange(req).value).Some?
                          && DecodeAnswer(ch.parse(ch.exchange(req).value).value).Some?)
    ensures r.Ok? ==> Some(r.value.1) == DecodeAnswer(ch.parse(r.value.0).value)
  {
    match ch.exchange(req)
    case None => Err(Cstring)
    case Some(raw) =>
      match ch.parse(raw)
      case None => Err(Json)
      case Some(doc) =>
        match DecodeAnswer(doc)
        case None => Err(Json)
        case Some(answer) => Ok((raw, answer))
  }

  /** `unwrap_result`: a decoded result is returned whatever the status says;
      an empty result is turned into the error its status names, and panics
      (`Option::unwrap` of `None`) when the status is 0. */
  function UnwrapResult(a: Answer): (r: Run<Result<Payload, Error>>)
    ensures a.result.Valid? ==> r == Returns(Ok(a.result.payload))
    ensures r.Panics? <==> a.result.Empty? && a.status == 0
    ensures a.result.Empty? && a.status != 0 ==>
              r == Returns(Err(FromStatus(a.status, a.errorName, a.errorMsg).value))
    ensures r.Returns? && r.value.Err? ==> r.value.error.Gpr? && r.value.error.code != IOError
  {
    match a.result
    case Valid(p) => Returns(Ok(p))
    case Empty =>
      var e :- Unwrap(FromStatus(a.status, a.errorName, a.errorMsg));
      Returns(Err(e))
  }

  /** The error for a well-formed answer of the wrong shape: it carries the
      whole raw answer as its message. */
  function InvalidResponse(raw: string): Error {
    FromCode(UnknownError, "InvalidResponse", raw)
  }

  /** The shape check of `Tree::load`. */
  function ExpectTree(raw: string, a: Answer): (r: Run<Result<Tree, Error>>)
    ensures r.Returns? && r.value.Ok? <==> a.result.Valid? && a.result.payload.TreeResult?
    ensures r.Returns? && r.value.Ok? ==> r.value.value == a.result.payload.tree
    ensures a.result.Valid? && a.result.payload.AttributeResult? ==>
              r == Returns(Err(Gpr(UnknownError, "InvalidResponse", raw)))
    ensures r.Panics? <==> a.result.Empty? && a.status == 0
    ensures a.result.Empty? && a.status != 0 ==>
              r == Returns(Err(FromStatus(a.status, a.errorName, a.errorMsg).value))
  {
    var unwrapped :- UnwrapResult(a);
    match unwrapped
    case Err(e) => Returns(Err(e))
    case Ok(TreeResult(t)) => Returns(Ok(t))
    case Ok(_) => Returns(Err(InvalidResponse(raw)))
  }

  /** The shape check of `Tree::get_attribute`. */
  function ExpectAttribute(raw: string, a: Answer): (r: Run<Result<Attribute, Error>>)
    ensures r.Returns? && r.value.Ok? <==> a.result.Valid? && a.result.payload.AttributeResult?
    ensures r.Returns? && r.value.Ok? ==> r.value.value == a.result.payload.wrapper.attribute
    ensures a.result.Valid? && a.result.payload.TreeResult? ==>
              r == Returns(Err(Gpr(UnknownError, "InvalidResponse", raw)))
    ensures r.Panics? <==> a.result.Empty? && a.status == 0
    ensures a.result.Empty? && a.status != 0 ==>
              r == Returns(Err(FromStatus(a.status, a.errorName, a.errorMsg).value))
  {
    var unwrapped :- UnwrapResult(a);
    match unwrapped
    case Err(e) => Returns(Err(e))
    case Ok(AttributeResult(w)) => Returns(Ok(w.attribute))
    case Ok(_) => Returns(Err(InvalidResponse(raw)))
  }

  /** `Tree::load`. */
  function Load(file: string, ch: Channel): (r: Run<Result<Tree, Error>>)
    ensures ch.exchange(LoadRequest(file)).None? ==> r == Returns(Err(Cstring))
    ensures r.Returns? && r.value.Err? && r.value.error != Cstring && r.value.error != Json ==>
              r.value.error.Gpr? && r.value.error.code != IOError
  {
    match Receive(ch, LoadRequest(file))
    case Err(e) => Returns(Err(e))
    case Ok((raw, a)) => ExpectTree(raw, a)
  }

  /** `Tree::get_attribute`, asking for `name` in the root view of `tree`. */
  function GetAttribute(tree: Tree, name: string, ch: Channel): (r: Run<Result<Attribute, Error>>)
    ensures ch.exchange(AttributeRequest(tree, name)).None? ==> r == Returns(Err(Cstring))
    ensures r.Returns? && r.value.Err? && r.value.error != Cstring && r.value.error != Json ==>
              r.value.error.Gpr? && r.value.error.code != IOError
  {
    match Receive(ch, AttributeRequest(tree, name))
    case Err(e) => Returns(Err(e))
    case Ok((raw, a)) => ExpectAttribute(raw, a)
  }

  /** The engine answering with text `raw` that reads as the envelope `a`,
      however it is laid out, to the load request: the load
      yields the tree if the result is one (whatever the status), rejects an
      attribute as an invalid response, reports the status of an empty
      result, and panics on an empty result with status 0. */
  lemma LoadAnswered(file: string, ch: Channel, raw: string, a: Answer)
    requires ch.exchange(LoadRequest(file)) == Some(raw)
    requires ch.parse(raw).Some? && DecodeAnswer(ch.parse(raw).value) == Some(a)
    ensures a.result.Valid? && a.result.payload.TreeResult? ==> Load(file, ch) == Returns(Ok(a.result.payload.tree))
    ensures a.result.Valid? && a.result.payload.AttributeResult? ==>
              Load(file, ch) == Returns(Err(Gpr(UnknownError, "InvalidResponse", raw)))
    ensures a.result.Empty? && a.status != 0 ==>
              Load(file, ch) == Returns(Err(FromStatus(a.status, a.errorName, a.errorMsg).value))
    ensures Load(file, ch) == Panics <==> a.result.Empty? && a.status == 0
  {
  }

  /** The engine answering with text `raw` that reads as the envelope `a` to
      the attribute request. */
  lemma GetAttributeAnswered(tree: Tree, name: string, ch: Channel, raw: string, a: Answer)
    requires ch.exchange(AttributeRequest(tree, name)) == Some(raw)
    requires ch.parse(raw).Some? && DecodeAnswer(ch.parse(raw).value) == Some(a)
    ensures a.result.Valid? && a.result.payload.AttributeResult? ==>
              GetAttribute(tree, name, ch) == Returns(Ok(a.result.payload.wrapper.attribute))
    ensures a.result.Valid? && a.result.payload.TreeResult? ==>
              GetAttribute(tree, name, ch) == Returns(Err(Gpr(UnknownError, "InvalidResponse", raw)))
    ensures a.result.Empty? && a.status != 0 ==>
              GetAttribute(tree, name, ch) == Returns(Err(FromStatus(a.status, a.errorName, a.errorMsg).value))
    ensures GetAttribute(tree, name, ch) == Panics <==> a.result.Empty? && a.status == 0
  {
  }

  /** Answer text that is not JSON, or JSON that is not an envelope, is a
      decoding error and never a panic. */
  lemma LoadUndecodable(file: string, ch: Channel, raw: string)
    requires ch.exchange(LoadRequest(file)) == Some(raw)
    requires ch.parse(raw).None? || DecodeAnswer(ch.parse(raw).value).None?
    ensures Load(file, ch) == Returns(Err(Json))
  {
  }

  /** The same for the attribute request. */
  lemma GetAttributeUndecodable(tree: Tree, name: string, ch: Channel, raw: string)
    requires ch.exchange(AttributeRequest(tree, name)) == Some(raw)
    requires ch.parse(raw).None? || DecodeAnswer(ch.parse(raw).value).None?
    ensures GetAttribute(tree, name, ch) == Returns(Err(Json))
  {
  }

  /** An answer whose result is a tree missing any required member falls back
      to `Empty`; with status 0 the load panics instead of reporting an
      invalid response. */
  lemma LoadPanicsOnIncompleteTree(file: string, ch: Channel, raw: string, t: Tree, m: string,
                                   msg: string, errName: string)
    requires m in RequiredTreeMembers
    requires ch.exchange(LoadRequest(file)) == Some(raw)
    requires ch.parse(raw) == Some(Envelope(JObject(EncodeTree(t).fields - {m}), 0, msg, errName))
    ensures Load(file, ch) == Panics
  {
    IncompleteTreeReadsAsEmpty(t, m);
  }

  /** An object that is both a tree and an attribute, sent with status 0 in
      answer to an attribute request, is taken as a tree and rejected. */
  lemma GetAttributeRejectsTreeFirstObject(tree: Tree, name: string, ch: Channel, raw: string,
                                           t: Tree, w: AttributeWrapper, msg: string, errName: string)
    ensures ch.exchange(AttributeRequest(tree, name)) == Some(raw)
            && ch.parse(raw) == Some(Envelope(
                 JObject(EncodeTree(t).fields["attribute" := EncodeAttributeWrapper(w).fields["attribute"]]),
                 0, msg, errName))
            ==> GetAttribute(tree, name, ch) == Returns(Err(Gpr(UnknownError, "InvalidResponse", raw)))
  {
    TreeTakesPrecedence(t, w);
  }
}
