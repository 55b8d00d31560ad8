/** The answer envelope of the engine (src/binding.rs) and its decoding from a
    JSON value. The decoders follow the derived `Deserialize` of each type:
    structs read named members of an object and ignore the others; an
    `Option` member may be absent or `null`; an untagged enum tries its
    variants in declaration order and takes the first that decodes. */
module Answers {
  import opened Wrappers
  import opened JsonValue
  import opened Attributes

  /** A loaded project tree as the engine describes it. */
  datatype Tree = Tree(
    id: string,
    rootView: string,
    configView: Option<string>,
    runtimeView: Option<string>,
    target: string,
    canonicalTarget: string,
    searchPaths: seq<string>,
    srcSubdirs: Option<string>,
    subdirs: Option<string>,
    buildPath: Option<string>,
    views: seq<string>,
    context: map<string, string>)

  datatype Attribute = Attribute(value: AttributeValue, isDefault: bool)

  /** The `{"attribute": ...}` object around an attribute. */
  datatype AttributeWrapper = AttributeWrapper(attribute: Attribute)

  /** The untagged `Result` enum: a tree, else an attribute. */
  datatype Payload = TreeResult(tree: Tree) | AttributeResult(wrapper: AttributeWrapper)

  /** The untagged `ResultWrapper` enum: a payload, else the empty struct. */
  datatype ResultWrapper = Valid(payload: Payload) | Empty

  datatype Answer = Answer(result: ResultWrapper, status: int32, errorMsg: string, errorName: string)

  // ---------------------------------------------------------------- decoding

  /** The tree members without an `Option` type. */
  const RequiredTreeMembers: set<string> :=
    {"id", "root_view", "target", "canonical_target", "search_paths", "views", "context"}
  // A member read with `:-` is required: its absence is a decoding error.

  /** A tree read from an object: each field comes from the member of the
      same name, and an object lacking a required member is not a tree. */
  function DecodeTree(v: Value): (r: Option<Tree>)
    ensures r.Some? <==>
              && v.JObject? && RequiredTreeMembers <= v.fields.Keys
              && v.fields["id"].JString? && v.fields["root_view"].JString?
              && v.fields["target"].JString? && v.fields["canonical_target"].JString?
              && AsStrings(v.fields["search_paths"]).Some? && AsStrings(v.fields["views"]).Some?
              && AsStringMap(v.fields["context"]).Some?
              && AsOptionalString(Member(v, "config_view")).Some?
              && AsOptionalString(Member(v, "runtime_view")).Some?
              && AsOptionalString(Member(v, "src_subdirs")).Some?
              && AsOptionalString(Member(v, "subdirs")).Some?
              && AsOptionalString(Member(v, "build_path")).Some?
    ensures r.Some? ==> v.JObject? && RequiredTreeMembers <= v.fields.Keys
    ensures r.Some? ==> Member(v, "id") == Some(JString(r.value.id))
    ensures r.Some? ==> Member(v, "root_view") == Some(JString(r.value.rootView))
    ensures r.Some? ==> AsOptionalString(Member(v, "config_view")) == Some(r.value.configView)
    ensures r.Some? ==> AsOptionalString(Member(v, "runtime_view")) == Some(r.value.runtimeView)
    ensures r.Some? ==> Member(v, "target") == Some(JString(r.value.target))
    ensures r.Some? ==> Member(v, "canonical_target") == Some(JString(r.value.canonicalTarget))
    ensures r.Some? ==> AsStrings(v.fields["search_paths"]) == Some(r.value.searchPaths)
    ensures r.Some? ==> AsOptionalString(Member(v, "src_subdirs")) == Some(r.value.srcSubdirs)
    ensures r.Some? ==> AsOptionalString(Member(v, "subdirs")) == Some(r.value.subdirs)
    ensures r.Some? ==> AsOptionalString(Member(v, "build_path")) == Some(r.value.buildPath)
    ensures r.Some? ==> AsStrings(v.fields["views"]) == Some(r.value.views)
    ensures r.Some? ==> AsStringMap(v.fields["context"]) == Some(r.value.context)
  {
    var id :- Member(v, "id");
    var id :- AsString(id);
    var rootView :- Member(v, "root_view");
    var rootView :- AsString(rootView);
    var configView :- AsOptionalString(Member(v, "config_view"));
    var runtimeView :- AsOptionalString(Member(v, "runtime_view"));
    var target :- Member(v, "target");
    var target :- AsString(target);
    var canonicalTarget :- Member(v, "canonical_target");
    var canonicalTarget :- AsString(canonicalTarget);
    var searchPaths :- Member(v, "search_paths");
    var searchPaths :- AsStrings(searchPaths);
    var srcSubdirs :- AsOptionalString(Member(v, "src_subdirs"));
    var subdirs :- AsOptionalString(Member(v, "subdirs"));
    var buildPath :- AsOptionalString(Member(v, "build_path"));
    var views :- Member(v, "views");
    var views :- AsStrings(views);
    var context :- Member(v, "context");
    var context :- AsStringMap(context);
    Some(Tree(id, rootView, configView, runtimeView, target, canonicalTarget,
              searchPaths, srcSubdirs, subdirs, buildPath, views, context))
  }

  /** The untagged `AttributeValue`: a string is `Single`, else an array of
      strings is `List`. */
  function DecodeAttributeValue(v: Value): (r: Option<AttributeValue>)
    ensures r.Some? <==> v.JString? || AsStrings(v).Some?
    ensures r.Some? && r.value.Single? <==> v.JString?
    ensures v.JString? ==> r == Some(Single(v.s))
    ensures !v.JString? && r.Some? ==> r == Some(List(AsStrings(v).value))
  {
    match AsString(v)
    case Some(s) => Some(Single(s))
    case None =>
      match AsStrings(v)
      case Some(xs) => Some(List(xs))
      case None => None
  }

  function DecodeAttribute(v: Value): (r: Option<Attribute>)
    ensures r.Some? <==> && Member(v, "value").Some? && DecodeAttributeValue(v.fields["value"]).Some?
                         && Member(v, "is_default").Some? && v.fields["is_default"].JBool?
    ensures r.Some? ==> DecodeAttributeValue(v.fields["value"]) == Some(r.value.value)
    ensures r.Some? ==> v.fields["is_default"] == JBool(r.value.isDefault)
  {
    var value :- Member(v, "value");
    var value :- DecodeAttributeValue(value);
    var isDefault :- Member(v, "is_default");
    var isDefault :- AsBool(isDefault);
    Some(Attribute(value, isDefault))
  }

  function DecodeAttributeWrapper(v: Value): (r: Option<AttributeWrapper>)
    ensures r.Some? <==> Member(v, "attribute").Some? && DecodeAttribute(v.fields["attribute"]).Some?
    ensures r.Some? ==> DecodeAttribute(v.fields["attribute"]) == Some(r.value.attribute)
  {
    var attribute :- Member(v, "attribute");
    var attribute :- DecodeAttribute(attribute);
    Some(AttributeWrapper(attribute))
  }

  /** The untagged `Result`: `Tree` is tried before `Attribute`, so a value
      that reads as both is a tree. */
  function DecodePayload(v: Value): (r: Option<Payload>)
    ensures DecodeTree(v).Some? ==> r == Some(TreeResult(DecodeTree(v).value))
    ensures DecodeTree(v).None? ==> (r.Some? <==> DecodeAttributeWrapper(v).Some?)
    ensures DecodeTree(v).None? && r.Some? ==> r == Some(AttributeResult(DecodeAttributeWrapper(v).value))
  {
    match DecodeTree(v)
    case Some(t) => Some(TreeResult(t))
    case None =>
      match DecodeAttributeWrapper(v)
      case Some(w) => Some(AttributeResult(w))
      case None => None
  }

  /** The untagged `ResultWrapper`: `Valid` is tried before `Empty`. The empty
      struct accepts every object, so any object that is neither a tree nor an
      attribute, however malformed, reads as `Empty`. */
  function DecodeResultWrapper(v: Value): (r: Option<ResultWrapper>)
    ensures r.Some? && r.value.Valid? <==> DecodePayload(v).Some?
    ensures r.Some? && r.value.Valid? ==> r.value.payload == DecodePayload(v).value
    ensures r == Some(Empty) <==> v.JObject? && DecodeTree(v).None? && DecodeAttributeWrapper(v).None?
    ensures r.None? <==> !v.JObject?
  {
    match DecodePayload(v)
    case Some(p) => Some(Valid(p))
    case None => if v.JObject? then Some(Empty) else None
  }

  /** The whole envelope `{result, status, error_msg, error_name}`. */
  function DecodeAnswer(v: Value): (r: Option<Answer>)
    ensures r.Some? <==> && Member(v, "result").Some? && DecodeResultWrapper(v.fields["result"]).Some?
                         && Member(v, "status").Some? && AsInt32(v.fields["status"]).Some?
                         && Member(v, "error_msg").Some? && v.fields["error_msg"].JString?
                         && Member(v, "error_name").Some? && v.fields["error_name"].JString?
    ensures r.Some? ==> DecodeResultWrapper(v.fields["result"]) == Some(r.value.result)
    ensures r.Some? ==> v.fields["status"] == JNumber(r.value.status as int)
    ensures r.Some? ==> v.fields["error_msg"] == JString(r.value.errorMsg)
    ensures r.Some? ==> v.fields["error_name"] == JString(r.value.errorName)
  {
    var result :- Member(v, "result");
    var result :- DecodeResultWrapper(result);
    var status :- Member(v, "status");
    var status :- AsInt32(status);
    var errorMsg :- Member(v, "error_msg");
    var errorMsg :- AsString(errorMsg);
    var errorName :- Member(v, "error_name");
    var errorName :- AsString(errorName);
    Some(Answer(result, status, errorMsg, errorName))
  }

  // ---------------------------------------------------------------- encoding

  /** The members a tree is written with. */
  const TreeMembers: set<string> := {
    "id", "root_view", "config_view", "runtime_view", "target", "canonical_target",
    "search_paths", "src_subdirs", "subdirs", "build_path", "views", "context"}

  /** The object a tree is written as, from the values of its members. */
  function TreeObject(id: Value, rootView: Value, configView: Value, runtimeView: Value,
                      target: Value, canonicalTarget: Value, searchPaths: Value, srcSubdirs: Value,
                      subdirs: Value, buildPath: Value, views: Value, context: Value): (r: Value)
    ensures r.JObject? && r.fields.Keys == TreeMembers
    ensures Member(r, "id") == Some(id) && Member(r, "root_view") == Some(rootView)
    ensures Member(r, "config_view") == Some(configView) && Member(r, "runtime_view") == Some(runtimeView)
    ensures Member(r, "target") == Some(target) && Member(r, "canonical_target") == Some(canonicalTarget)
    ensures Member(r, "search_paths") == Some(searchPaths) && Member(r, "src_subdirs") == Some(srcSubdirs)
    ensures Member(r, "subdirs") == Some(subdirs) && Member(r, "build_path") == Some(buildPath)
    ensures Member(r, "views") == Some(views) && Member(r, "context") == Some(context)
  {
    JObject(map[
      "id" := id, "root_view" := rootView, "config_view" := configView, "runtime_view" := runtimeView,
      "target" := target, "canonical_target" := canonicalTarget, "search_paths" := searchPaths,
      "src_subdirs" := srcSubdirs, "subdirs" := subdirs, "build_path" := buildPath,
      "views" := views, "context" := context])
  }

  /** A tree as the engine writes it; it decodes back to the same tree. */
  function EncodeTree(t: Tree): (r: Value)
    ensures r.JObject? && r.fields.Keys == TreeMembers
    ensures DecodeTree(r) == Some(t)
  {
    TreeObject(JString(t.id), JString(t.rootView),
               FromOptionalString(t.configView), FromOptionalString(t.runtimeView),
               JString(t.target), JString(t.canonicalTarget), FromStrings(t.searchPaths),
               FromOptionalString(t.srcSubdirs), FromOptionalString(t.subdirs),
               FromOptionalString(t.buildPath), FromStrings(t.views), FromStringMap(t.context))
  }

  function EncodeAttributeValue(a: AttributeValue): (r: Value)
    ensures DecodeAttributeValue(r) == Some(a)
  {
    match a
    case Single(s) => JString(s)
    case List(xs) => FromStrings(xs)
  }

  function EncodeAttributeWrapper(w: AttributeWrapper): (r: Value)
    ensures r.JObject? && r.fields.Keys == {"attribute"}
    ensures DecodeAttributeWrapper(r) == Some(w)
  {
    var a := w.attribute;
    JObject(map["attribute" := JObject(map[
      "value" := EncodeAttributeValue(a.value),
      "is_default" := JBool(a.isDefault)])])
  }

  function EncodePayload(p: Payload): (r: Value)
    ensures DecodePayload(r) == Some(p)
  {
    match p
    case TreeResult(t) => EncodeTree(t)
    case AttributeResult(w) => EncodeAttributeWrapper(w)
  }

  /** `Empty` is written as `{}`. */
  function EncodeResultWrapper(w: ResultWrapper): (r: Value)
    ensures DecodeResultWrapper(r) == Some(w)
  {
    match w
    case Valid(p) => EncodePayload(p)
    case Empty => JObject(map[])
  }

  /** An envelope around an already written `result` member. Whatever the
      `result` member reads as, the envelope reads as that with the given
      status and error fields. */
  function Envelope(result: Value, status: int32, errorMsg: string, errorName: string): (r: Value)
    ensures DecodeResultWrapper(result).Some? ==>
              DecodeAnswer(r) == Some(Answer(DecodeResultWrapper(result).value, status, errorMsg, errorName))
    ensures DecodeResultWrapper(result).None? ==> DecodeAnswer(r).None?
  {
    JObject(map[
      "result" := result,
      "status" := JNumber(status as int),
      "error_msg" := JString(errorMsg),
      "error_name" := JString(errorName)])
  }

  function EncodeAnswer(a: Answer): (r: Value)
    ensures DecodeAnswer(r) == Some(a)
  {
    Envelope(EncodeResultWrapper(a.result), a.status, a.errorMsg, a.errorName)
  }

  // ---------------------------------------------------------------- precedence

  /** An object carrying every member of a tree and of an attribute wrapper
      reads as both, and the envelope keeps the tree. */
  lemma TreeTakesPrecedence(t: Tree, w: AttributeWrapper)
    ensures var v := JObject(EncodeTree(t).fields["attribute" := EncodeAttributeWrapper(w).fields["attribute"]]);
            && DecodeTree(v) == Some(t)
            && DecodeAttributeWrapper(v) == Some(w)
            && DecodeResultWrapper(v) == Some(Valid(TreeResult(t)))
  {
    var inner := EncodeAttributeWrapper(w).fields["attribute"];
    var v := JObject(EncodeTree(t).fields["attribute" := inner]);
    AttributeIsNotATreeMember();
    TreeIgnoresExtraMember(t, "attribute", inner);
    assert DecodeTree(v) == Some(t);
    assert Member(v, "attribute") == Member(EncodeAttributeWrapper(w), "attribute");
    assert DecodeAttributeWrapper(v) == DecodeAttributeWrapper(EncodeAttributeWrapper(w));
  }

  lemma AttributeIsNotATreeMember()
    ensures "attribute" !in TreeMembers
  {
    assert "attribute" != "root_view" by { assert "attribute"[0] != "root_view"[0]; }
  }

  /** Members a tree does not know leave its decoding unchanged. */
  lemma TreeIgnoresExtraMember(t: Tree, key: string, extra: Value)
    requires key !in EncodeTree(t).fields
    ensures DecodeTree(JObject(EncodeTree(t).fields[key := extra])) == Some(t)
  {
    var e := EncodeTree(t);
    var v := JObject(e.fields[key := extra]);
    forall k | k in e.fields
      ensures Member(v, k) == Member(e, k)
    {
    }
    assert Member(v, "config_view") == Member(e, "config_view");
    assert Member(v, "runtime_view") == Member(e, "runtime_view");
    assert Member(v, "src_subdirs") == Member(e, "src_subdirs");
    assert Member(v, "subdirs") == Member(e, "subdirs");
    assert Member(v, "build_path") == Member(e, "build_path");
  }

  /** A tree missing any one of its required members is not a tree; nor is it
      an attribute, so the envelope reads it as `Empty`. */
  lemma IncompleteTreeReadsAsEmpty(t: Tree, m: string)
    requires m in RequiredTreeMembers
    ensures DecodeResultWrapper(JObject(EncodeTree(t).fields - {m})) == Some(Empty)
  {
    var v := JObject(EncodeTree(t).fields - {m});
    assert m !in v.fields.Keys;
    AttributeIsNotATreeMember();
    assert Member(v, "attribute").None?;
  }
}
