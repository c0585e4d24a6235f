/** Reading the `#[globals_struct_field(Target)]` tag off a static: the
    helpers `get_path_last_ident` and `get_meta_sole_path`, and the lookup
    `globals_struct_field_attr_target` (src/lib.rs:117-176). */
module FieldTag {
  import opened Wrappers
  import opened Syntax

  /** The name the tag attribute is recognised by. */
  const TagName: Ident := "globals_struct_field"

  /** `get_path_last_ident`: the identifier of the last segment, provided the
      path has one and that segment carries no generic arguments. A leading
      `::` and the earlier segments play no part. */
  function PathLastIdent(p: Path): (r: Option<Ident>)
    ensures forall id :: r == Some(id) <==>
      exists prefix :: p.segments == prefix + [PathSegment(id, NoArguments)]
  {
    if |p.segments| == 0 then None
    else
      var last := p.segments[|p.segments| - 1];
      assert p.segments == p.segments[..|p.segments| - 1] + [last];
      if last.arguments.NoArguments? then Some(last.ident) else None
  }

  /** The one accepted shape of the tag, `#[attrPath(target)]`. */
  function SoleListMeta(attrPath: Path, target: Path): Meta {
    MetaList(attrPath, [NestedMetaItem(MetaPath(target))])
  }

  /** `get_meta_sole_path`: the path inside a list meta holding exactly one
      bare path. Every other shape (a bare path, a name-value pair, an empty or
      longer list, a literal or nested list inside) gives `None`. */
  function MetaSolePath(m: Meta): (r: Option<Path>)
    ensures forall target :: r == Some(target) <==> m == SoleListMeta(m.path, target)
  {
    match m
    case MetaList(_, nested) =>
      if |nested| != 1 then None
      else if nested[0].NestedMetaItem? && nested[0].meta.MetaPath? then Some(nested[0].meta.path)
      else None
    case _ => None
  }

  /** An attribute whose path ends in the identifier `globals_struct_field`. */
  predicate IsFieldTag(a: Attribute) {
    PathLastIdent(a.path) == Some(TagName)
  }

  /** The tag attributes among `attrs`, in order. */
  function FieldTags(attrs: seq<Attribute>): (r: seq<Attribute>)
    ensures |r| <= |attrs|
  {
    if attrs == [] then []
    else
      var last := attrs[|attrs| - 1];
      FieldTags(attrs[..|attrs| - 1]) + (if IsFieldTag(last) then [last] else [])
  }

  /** Every attribute kept is a tag of the input. */
  lemma {:induction false} FieldTagsMembers(attrs: seq<Attribute>)
    ensures forall a :: a in FieldTags(attrs) ==> a in attrs && IsFieldTag(a)
  {
    if attrs != [] {
      var init := attrs[..|attrs| - 1];
      FieldTagsMembers(init);
      assert forall a :: a in init ==> a in attrs;
    }
  }

  /** No attribute is kept exactly when no attribute is a tag. */
  lemma {:induction false} FieldTagsNone(attrs: seq<Attribute>)
    ensures |FieldTags(attrs)| == 0 <==> forall i :: 0 <= i < |attrs| ==> !IsFieldTag(attrs[i])
  {
    if attrs != [] {
      var n := |attrs| - 1;
      var init := attrs[..n];
      FieldTagsNone(init);
      assert forall i :: 0 <= i < n ==> init[i] == attrs[i];
    }
  }

  /** Taking more attributes never loses a tag. */
  lemma {:induction false} FieldTagsPrefix(attrs: seq<Attribute>, k: nat)
    requires k <= |attrs|
    ensures FieldTags(attrs[..k]) <= FieldTags(attrs)
  {
    if k < |attrs| {
      var init := attrs[..|attrs| - 1];
      assert init[..k] == attrs[..k];
      FieldTagsPrefix(init, k);
    } else {
      assert attrs[..k] == attrs;
    }
  }

  /** One more attribute adds it to the tags when it is one. */
  lemma FieldTagsStep(attrs: seq<Attribute>, i: nat)
    requires i < |attrs|
    ensures FieldTags(attrs[..i + 1]) == FieldTags(attrs[..i]) + if IsFieldTag(attrs[i]) then [attrs[i]] else []
  {
    assert attrs[..i + 1][..i] == attrs[..i];
  }

  /** Two distinct attributes of `attrs` are tags. */
  predicate TwoTags(attrs: seq<Attribute>) {
    exists i, j :: 0 <= i < j < |attrs| && IsFieldTag(attrs[i]) && IsFieldTag(attrs[j])
  }

  /** `attrs[i]` is a tag and no other attribute is. */
  predicate SoleTag(attrs: seq<Attribute>, i: nat) {
    i < |attrs| && IsFieldTag(attrs[i]) &&
    forall j :: 0 <= j < |attrs| && j != i ==> !IsFieldTag(attrs[j])
  }

  /** Two or more tags are kept exactly when two attributes are tags. */
  lemma FieldTagsTwo(attrs: seq<Attribute>)
    ensures |FieldTags(attrs)| >= 2 <==> TwoTags(attrs)
  {
    if |FieldTags(attrs)| >= 2 {
      FieldTagsTwoSound(attrs);
    }
    if TwoTags(attrs) {
      var i, j :| 0 <= i < j < |attrs| && IsFieldTag(attrs[i]) && IsFieldTag(attrs[j]);
      FieldTagsTwoComplete(attrs, i, j);
    }
  }

  lemma {:induction false} FieldTagsTwoSound(attrs: seq<Attribute>)
    requires |FieldTags(attrs)| >= 2
    ensures TwoTags(attrs)
  {
    var n := |attrs| - 1;
    var init := attrs[..n];
    if |FieldTags(init)| >= 2 {
      FieldTagsTwoSound(init);
      var i, j :| 0 <= i < j < |init| && IsFieldTag(init[i]) && IsFieldTag(init[j]);
      assert init[i] == attrs[i] && init[j] == attrs[j];
    } else {
      FieldTagsNone(init);
      var i :| 0 <= i < n && IsFieldTag(init[i]);
      assert init[i] == attrs[i];
      assert IsFieldTag(attrs[n]);
    }
  }

  lemma {:induction false} FieldTagsTwoComplete(attrs: seq<Attribute>, i: nat, j: nat)
    requires i < j < |attrs| && IsFieldTag(attrs[i]) && IsFieldTag(attrs[j])
    ensures |FieldTags(attrs)| >= 2
  {
    var n := |attrs| - 1;
    var init := attrs[..n];
    assert FieldTags(attrs) == FieldTags(init) + if IsFieldTag(attrs[n]) then [attrs[n]] else [];
    assert init[i] == attrs[i];
    if j < n {
      assert init[j] == attrs[j];
      FieldTagsTwoComplete(init, i, j);
    } else {
      FieldTagsNone(init);
      assert IsFieldTag(init[i]);
    }
  }

  /** An attribute that is the only tag is exactly what is kept. */
  lemma {:induction false} FieldTagsSole(attrs: seq<Attribute>, i: nat)
    requires SoleTag(attrs, i)
    ensures FieldTags(attrs) == [attrs[i]]
  {
    var n := |attrs| - 1;
    var init := attrs[..n];
    assert forall k :: 0 <= k < n ==> init[k] == attrs[k];
    if i == n {
      FieldTagsNone(init);
    } else {
      FieldTagsSole(init, i);
    }
  }

  /** The target named by one tag (src/lib.rs:140-150): the tag must parse as
      `#[globals_struct_field(target)]`, and then the answer is the target's
      last identifier, which may be absent. */
  function TagTarget(tag: Attribute): (r: Result<Option<Ident>, Error>)
    ensures tag.parsedMeta.None? ==> r == Failure(MetaUnparsable)
    ensures forall attrPath, target :: tag.parsedMeta == Some(SoleListMeta(attrPath, target)) ==>
      r == Success(PathLastIdent(target))
    ensures tag.parsedMeta.Some? && MetaSolePath(tag.parsedMeta.value).None? ==> r == Failure(MalformedFieldTag)
  {
    match tag.parsedMeta
    case None => Failure(MetaUnparsable)
    case Some(meta) =>
      match MetaSolePath(meta)
      case None => Failure(MalformedFieldTag)
      case Some(target) => Success(PathLastIdent(target))
  }

  /** What `globals_struct_field_attr_target` answers for a static's
      attributes: no tag means no target, two or more tags are an error, and
      a single tag is read by `TagTarget`. */
  function FieldTarget(attrs: seq<Attribute>): (r: Result<Option<Ident>, Error>)
    ensures (forall i :: 0 <= i < |attrs| ==> !IsFieldTag(attrs[i])) ==> r == Success(None)
    ensures r == Failure(DuplicateFieldTag) <==> |FieldTags(attrs)| >= 2
    ensures r == Failure(DuplicateFieldTag) <==> TwoTags(attrs)
    ensures forall i {:trigger SoleTag(attrs, i)} :: 0 <= i < |attrs| && SoleTag(attrs, i) ==> r == TagTarget(attrs[i])
    ensures r.Success? && r.value.Some? ==>
      exists i, attrPath, target :: 0 <= i < |attrs| && IsFieldTag(attrs[i]) &&
        attrs[i].parsedMeta == Some(SoleListMeta(attrPath, target)) && PathLastIdent(target) == r.value
  {
    FieldTagsMembers(attrs);
    FieldTagsNone(attrs);
    FieldTagsTwo(attrs);
    assert forall i :: 0 <= i < |attrs| && SoleTag(attrs, i) ==> FieldTags(attrs) == [attrs[i]] by {
      forall i | 0 <= i < |attrs| && SoleTag(attrs, i) ensures FieldTags(attrs) == [attrs[i]] {
        FieldTagsSole(attrs, i);
      }
    }
    var tags := FieldTags(attrs);
    if |tags| == 0 then Success(None)
    else if |tags| >= 2 then Failure(DuplicateFieldTag)
    else
      var tag := tags[0];
      assert tag in tags;
      assert tag.parsedMeta.Some? && MetaSolePath(tag.parsedMeta.value).Some? ==>
        tag.parsedMeta == Some(SoleListMeta(tag.parsedMeta.value.path, MetaSolePath(tag.parsedMeta.value).value));
      TagTarget(tag)
  }

  /** `FieldTarget` by the number of tags kept. */
  lemma FieldTargetByCount(attrs: seq<Attribute>)
    ensures |FieldTags(attrs)| == 0 ==> FieldTarget(attrs) == Success(None)
    ensures |FieldTags(attrs)| == 1 ==> FieldTarget(attrs) == TagTarget(FieldTags(attrs)[0])
  {
  }

  /** The attribute loop of `globals_struct_field_attr_target`
      (src/lib.rs:121-134): one pass remembering the tag seen so far, stopping
      as soon as a second one appears. */
  method FindTag(attrs: seq<Attribute>) returns (found: Option<Attribute>, duplicate: bool)
    ensures duplicate <==> |FieldTags(attrs)| >= 2
    ensures !duplicate ==> found == if |FieldTags(attrs)| == 0 then None else Some(FieldTags(attrs)[0])
  {
    found := None;
    for i := 0 to |attrs|
      invariant |FieldTags(attrs[..i])| <= 1
      invariant found == if |FieldTags(attrs[..i])| == 0 then None else Some(FieldTags(attrs[..i])[0])
    {
      var attr := attrs[i];
      FieldTagsStep(attrs, i);
      var attrIdent := PathLastIdent(attr.path);
      if attrIdent == Some(TagName) {
        if found.Some? {
          assert |FieldTags(attrs)| >= 2 by {
            FieldTagsPrefix(attrs, i + 1);
          }
          return found, true;
        }
        found := Some(attr);
      }
    }
    assert attrs[..|attrs|] == attrs;
    duplicate := false;
  }

  /** `globals_struct_field_attr_target` (src/lib.rs:117-151): find the tag,
      failing on a second one, then read the target off the tag found. */
  method FindFieldTarget(attrs: seq<Attribute>) returns (r: Result<Option<Ident>, Error>)
    ensures r == FieldTarget(attrs)
  {
    var found, duplicate := FindTag(attrs);
    FieldTargetByCount(attrs);
    if duplicate {
      return Failure(DuplicateFieldTag);
    }
    if found.None? {
      return Success(None);
    }
    var meta := found.value.parsedMeta;
    if meta.None? {
      return Failure(MetaUnparsable);
    }
    var targetPath := MetaSolePath(meta.value);
    if targetPath.None? {
      return Failure(MalformedFieldTag);
    }
    r := Success(PathLastIdent(targetPath.value));
  }
}
