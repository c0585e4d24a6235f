/** What `recursive_process_items` (src/lib.rs:64-115) computes, as functions:
    the fields a walk over a module's items collects, with `include!` items
    replaced by the walk over the included file, and the error that stops
    the walk. The imperative walk itself is `Process.ProcessItems`. */
module Scanner {
  import opened Wrappers
  import opened Syntax
  import opened FieldTag

  /** The macro name that splices a file in. */
  const IncludeName: Ident := "include"

  /** What reading a file and parsing it as Rust gives: a file that cannot be
      read is absent from the `FileSystem`. */
  datatype SourceFile = Unparsable | Parsed(items: seq<Item>)

  type FileSystem = map<string, SourceFile>

  /** One collected global: the static's visibility, name, type and initializer. */
  datatype Field = Field(vis: Visibility, name: Ident, ty: Ty, expr: Expr)

  /** The fields a walk pushed, in order, and the error that stopped it, if one did. */
  datatype Scan = Scan(fields: seq<Field>, error: Option<Error>)

  const Nothing: Scan := Scan([], None)

  /** Run `a`, then `b` only if `a` succeeded: fail-fast sequencing. */
  function Then(a: Scan, b: Scan): Scan {
    if a.error.Some? then a else Scan(a.fields + b.fields, b.error)
  }

  /** An item-position macro call named exactly `include` (src/lib.rs:96-100). */
  predicate IsInclude(item: Item) {
    item.Macro? && GetIdent(item.path) == Some(IncludeName)
  }

  /** `include!("file");` */
  function IncludeOf(file: string): Item {
    Macro(IdentPath(IncludeName), Some(file))
  }

  function FieldOf(item: Item): Field
    requires item.Static?
  {
    Field(item.vis, item.ident, item.ty, item.expr)
  }

  /** The walk's effect for one item. `fuel` bounds how deep includes may nest:
      an include that would descend with no fuel left fails instead. */
  function ScanItem(target: Ident, files: FileSystem, fuel: nat, item: Item): Scan
    decreases fuel, 0
  {
    match item
    case Static(attrs, vis, ident, ty, expr) =>
      (match FieldTarget(attrs)
       case Failure(e) => Scan([], Some(e))
       case Success(t) => if t == Some(target) then Scan([Field(vis, ident, ty, expr)], None) else Nothing)
    case Macro(path, body) =>
      if GetIdent(path) != Some(IncludeName) then Nothing
      else if body.None? then Scan([], Some(IncludeBodyNotString))
      else if body.value !in files then Scan([], Some(ReadFailed(body.value)))
      else if files[body.value].Unparsable? then Scan([], Some(ParseFailed(body.value)))
      else if fuel == 0 then Scan([], Some(IncludeDepthExceeded(body.value)))
      else ScanItems(target, files, fuel - 1, files[body.value].items)
    case Other => Nothing
  }

  /** The walk over a sequence of items, left to right, stopping at the first error. */
  function ScanItems(target: Ident, files: FileSystem, fuel: nat, items: seq<Item>): Scan
    decreases fuel, |items|
  {
    if items == [] then Nothing
    else Then(ScanItem(target, files, fuel, items[0]), ScanItems(target, files, fuel, items[1..]))
  }

  lemma ThenAssociative(a: Scan, b: Scan, c: Scan)
    ensures Then(Then(a, b), c) == Then(a, Then(b, c))
  {
  }

  /** Walking `a + b` is walking `a`, then `b` if `a` succeeded. */
  lemma {:induction false} ScanItemsAppend(target: Ident, files: FileSystem, fuel: nat, a: seq<Item>, b: seq<Item>)
    ensures ScanItems(target, files, fuel, a + b) ==
            Then(ScanItems(target, files, fuel, a), ScanItems(target, files, fuel, b))
  {
    if a == [] {
      assert a + b == b;
    } else {
      assert (a + b)[0] == a[0];
      assert (a + b)[1..] == a[1..] + b;
      ScanItemsAppend(target, files, fuel, a[1..], b);
      ThenAssociative(ScanItem(target, files, fuel, a[0]),
                      ScanItems(target, files, fuel, a[1..]), ScanItems(target, files, fuel, b));
    }
  }

  lemma ScanItemsSingle(target: Ident, files: FileSystem, fuel: nat, item: Item)
    ensures ScanItems(target, files, fuel, [item]) == ScanItem(target, files, fuel, item)
  {
    assert [item][1..] == [];
  }

  /** Walking one more item extends the walk of the prefix. */
  lemma ScanItemsSnoc(target: Ident, files: FileSystem, fuel: nat, items: seq<Item>, i: nat)
    requires i < |items|
    ensures ScanItems(target, files, fuel, items[..i + 1]) ==
            Then(ScanItems(target, files, fuel, items[..i]), ScanItem(target, files, fuel, items[i]))
  {
    assert items[..i + 1] == items[..i] + [items[i]];
    ScanItemsAppend(target, files, fuel, items[..i], [items[i]]);
    ScanItemsSingle(target, files, fuel, items[i]);
  }

  /** A walk whose prefix failed is that prefix's walk. */
  lemma ScanItemsStopped(target: Ident, files: FileSystem, fuel: nat, items: seq<Item>, k: nat)
    requires k <= |items| && ScanItems(target, files, fuel, items[..k]).error.Some?
    ensures ScanItems(target, files, fuel, items) == ScanItems(target, files, fuel, items[..k])
  {
    assert items == items[..k] + items[k..];
    ScanItemsAppend(target, files, fuel, items[..k], items[k..]);
  }

  /** A walk that failed only because it ran out of include fuel. */
  predicate Exhausted(s: Scan) {
    s.error.Some? && s.error.value.IncludeDepthExceeded?
  }

  /** Fuel only matters when it runs out: a walk that did not exhaust its
      fuel gives the same fields and the same outcome with any larger fuel,
      so it is the walk the unbounded recursion of the macro performs. */
  lemma {:induction false} ScanItemFuel(target: Ident, files: FileSystem, n: nat, m: nat, item: Item)
    requires n <= m && !Exhausted(ScanItem(target, files, n, item))
    ensures ScanItem(target, files, m, item) == ScanItem(target, files, n, item)
    decreases n, 0
  {
    if IsInclude(item) && item.body.Some? && item.body.value in files && files[item.body.value].Parsed? {
      ScanItemsFuel(target, files, n - 1, m - 1, files[item.body.value].items);
    }
  }

  lemma {:induction false} ScanItemsFuel(target: Ident, files: FileSystem, n: nat, m: nat, items: seq<Item>)
    requires n <= m && !Exhausted(ScanItems(target, files, n, items))
    ensures ScanItems(target, files, m, items) == ScanItems(target, files, n, items)
    decreases n, |items|
  {
    if items != [] {
      ScanItemFuel(target, files, n, m, items[0]);
      if ScanItem(target, files, n, items[0]).error.None? {
        ScanItemsFuel(target, files, n, m, items[1..]);
      }
    }
  }

  /** `file` reads and parses, and the walk over its items reaches
      `include!(next)` at position `k` with nothing before it having an effect. */
  predicate IncludesNext(target: Ident, files: FileSystem, file: string, k: nat, next: string) {
    && file in files && files[file].Parsed? && k < |files[file].items|
    && files[file].items[k] == IncludeOf(next)
    && forall j :: 0 <= j < k ==> Inert(target, files[file].items[j])
  }

  /** Items that all have no effect give an empty, successful walk. */
  lemma {:induction false} AllInertNothing(target: Ident, files: FileSystem, fuel: nat, items: seq<Item>)
    requires forall j :: 0 <= j < |items| ==> Inert(target, items[j])
    ensures ScanItems(target, files, fuel, items) == Nothing
  {
    if items != [] {
      assert forall j :: 0 <= j < |items| - 1 ==> items[1..][j] == items[j + 1];
      AllInertNothing(target, files, fuel, items[1..]);
    }
  }

  /** A walk that reaches an exhausted item past inert ones is exhausted. */
  lemma ExhaustedAt(target: Ident, files: FileSystem, fuel: nat, items: seq<Item>, k: nat)
    requires k < |items| && forall j :: 0 <= j < k ==> Inert(target, items[j])
    requires Exhausted(ScanItem(target, files, fuel, items[k]))
    ensures Exhausted(ScanItems(target, files, fuel, items))
  {
    assert items == items[..k] + [items[k]] + items[k + 1..];
    AllInertNothing(target, files, fuel, items[..k]);
    FailFast(target, files, fuel, items[..k], items[k], items[k + 1..]);
  }

  /** Files that include one another in a cycle, each reaching the include of
      the next without first failing or collecting anything, exhaust any fuel:
      the macro, which has no bound, recurses without end on them. A file that
      includes itself is the cycle of length one. */
  lemma {:induction false} IncludeCycleExhausts(target: Ident, files: FileSystem, cycle: seq<string>,
                                                 at: seq<nat>, fuel: nat)
    requires |cycle| > 0 && |at| == |cycle|
    requires forall n :: 0 <= n < |cycle| ==> IncludesNext(target, files, cycle[n], at[n], cycle[(n + 1) % |cycle|])
    ensures forall n :: 0 <= n < |cycle| ==> Exhausted(ScanItem(target, files, fuel, IncludeOf(cycle[n])))
  {
    forall n | 0 <= n < |cycle| ensures Exhausted(ScanItem(target, files, fuel, IncludeOf(cycle[n]))) {
      assert IncludesNext(target, files, cycle[n], at[n], cycle[(n + 1) % |cycle|]);
      if fuel > 0 {
        IncludeCycleExhausts(target, files, cycle, at, fuel - 1);
        ExhaustedAt(target, files, fuel - 1, files[cycle[n]].items, at[n]);
      }
    }
  }

  /** A static tagged with `#[globals_struct_field(target)]`. */
  predicate Selects(target: Ident, item: Item) {
    item.Static? && FieldTarget(item.attrs) == Success(Some(target))
  }

  /** Reference definition: the statics tagged for `target`, in order. */
  function Selected(target: Ident, items: seq<Item>): seq<Field> {
    if items == [] then []
    else (if Selects(target, items[0]) then [FieldOf(items[0])] else []) + Selected(target, items[1..])
  }

  /** Without includes, the walk succeeds exactly when every static's tag
      lookup does, and then collects precisely the statics tagged for the
      module, in source order, whatever the fuel. */
  lemma {:induction false} NoIncludeScan(target: Ident, files: FileSystem, fuel: nat, items: seq<Item>)
    requires forall i :: 0 <= i < |items| ==> !IsInclude(items[i])
    ensures ScanItems(target, files, fuel, items).error.None? <==>
            forall i :: 0 <= i < |items| && items[i].Static? ==> FieldTarget(items[i].attrs).Success?
    ensures ScanItems(target, files, fuel, items).error.None? ==>
            ScanItems(target, files, fuel, items).fields == Selected(target, items)
  {
    if items != [] {
      assert forall i :: 0 <= i < |items| - 1 ==> items[1..][i] == items[i + 1];
      NoIncludeScan(target, files, fuel, items[1..]);
    }
  }

  /** Items that the walk passes over without effect: untagged statics and
      statics tagged for another target, macros other than `include!`, and
      every other kind of item. */
  predicate Inert(target: Ident, item: Item) {
    match item
    case Static(attrs, _, _, _, _) => FieldTarget(attrs).Success? && FieldTarget(attrs).value != Some(target)
    case Macro(_, _) => !IsInclude(item)
    case Other => true
  }

  /** A static whose tag names a target path ending in generic arguments,
      `#[globals_struct_field(Name<T>)]`, has no target: it is dropped
      without an error. */
  lemma TargetWithArgumentsIgnored(target: Ident, files: FileSystem, fuel: nat, attrPath: Path,
                                   targetPath: Path, vis: Visibility, ident: Ident, ty: Ty, expr: Expr)
    requires PathLastIdent(attrPath) == Some(TagName)
    requires |targetPath.segments| > 0 && !targetPath.segments[|targetPath.segments| - 1].arguments.NoArguments?
    ensures var tag := Attribute(attrPath, Some(SoleListMeta(attrPath, targetPath)));
            ScanItem(target, files, fuel, Static([tag], vis, ident, ty, expr)) == Nothing
  {
  }

  /** An inert item contributes no field and raises no error wherever it stands. */
  lemma InertItemIgnored(target: Ident, files: FileSystem, fuel: nat, pre: seq<Item>, item: Item, post: seq<Item>)
    requires Inert(target, item)
    ensures ScanItems(target, files, fuel, pre + [item] + post) == ScanItems(target, files, fuel, pre + post)
  {
    ScanItemsAppend(target, files, fuel, pre + [item], post);
    ScanItemsAppend(target, files, fuel, pre, [item]);
    ScanItemsSingle(target, files, fuel, item);
    ScanItemsAppend(target, files, fuel, pre, post);
    assert ScanItems(target, files, fuel, pre + [item]) == ScanItems(target, files, fuel, pre);
  }

  /** Once an item fails, nothing after it is looked at: the walk ends with
      that item's error and what was pushed up to it. */
  lemma FailFast(target: Ident, files: FileSystem, fuel: nat, pre: seq<Item>, item: Item, post: seq<Item>)
    requires ScanItems(target, files, fuel, pre).error.None?
    requires ScanItem(target, files, fuel, item).error.Some?
    ensures ScanItems(target, files, fuel, pre + [item] + post) ==
            Scan(ScanItems(target, files, fuel, pre).fields + ScanItem(target, files, fuel, item).fields,
                 ScanItem(target, files, fuel, item).error)
  {
    ScanItemsAppend(target, files, fuel, pre + [item], post);
    ScanItemsAppend(target, files, fuel, pre, [item]);
    ScanItemsSingle(target, files, fuel, item);
  }

  /** An `include!` of a readable, parseable file contributes, at its own
      position, exactly the walk over the file's items one level deeper. */
  lemma IncludeSpliced(target: Ident, files: FileSystem, fuel: nat, pre: seq<Item>, file: string, post: seq<Item>)
    requires file in files && files[file].Parsed? && fuel > 0
    ensures ScanItems(target, files, fuel, pre + [IncludeOf(file)] + post) ==
            Then(ScanItems(target, files, fuel, pre),
                 Then(ScanItems(target, files, fuel - 1, files[file].items), ScanItems(target, files, fuel, post)))
  {
    ScanItemsAppend(target, files, fuel, pre + [IncludeOf(file)], post);
    ScanItemsAppend(target, files, fuel, pre, [IncludeOf(file)]);
    ScanItemsSingle(target, files, fuel, IncludeOf(file));
    ThenAssociative(ScanItems(target, files, fuel, pre), ScanItems(target, files, fuel - 1, files[file].items),
                    ScanItems(target, files, fuel, post));
  }

  /** Include resolution is textual substitution: when fuel suffices, walking
      the items with the `include!` is walking them with the file's items
      pasted in its place. */
  lemma IncludeSubstituted(target: Ident, files: FileSystem, fuel: nat, pre: seq<Item>, file: string, post: seq<Item>)
    requires file in files && files[file].Parsed? && fuel > 0
    requires !Exhausted(ScanItems(target, files, fuel, pre + [IncludeOf(file)] + post))
    ensures ScanItems(target, files, fuel, pre + [IncludeOf(file)] + post) ==
            ScanItems(target, files, fuel, pre + files[file].items + post)
  {
    var inner := files[file].items;
    IncludeSpliced(target, files, fuel, pre, file, post);
    ScanItemsAppend(target, files, fuel, pre + inner, post);
    ScanItemsAppend(target, files, fuel, pre, inner);
    ThenAssociative(ScanItems(target, files, fuel, pre), ScanItems(target, files, fuel, inner),
                    ScanItems(target, files, fuel, post));
    if ScanItems(target, files, fuel, pre).error.None? {
      ScanItemsFuel(target, files, fuel - 1, fuel, inner);
    }
  }
}
