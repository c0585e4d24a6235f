/** The imperative walk `recursive_process_items` (src/lib.rs:64-115) and the
    four vectors it pushes to. */
module Process {
  import opened Wrappers
  import opened Syntax
  import opened FieldTag
  import opened Scanner

  /** The caller-owned vectors `field_vises`, `field_names`, `field_tys` and
      `field_exprs`, which the walk only ever pushes to together. */
  class FieldColumns {
    var vises: seq<Visibility>
    var names: seq<Ident>
    var tys: seq<Ty>
    var exprs: seq<Expr>

    /** The columns stay the same length: row `i` of all four is one field. */
    ghost predicate Valid()
      reads this
    {
      |vises| == |names| == |tys| == |exprs|
    }

    /** The columns read row by row, one field per row. */
    ghost function Rows(): (r: seq<Field>)
      reads this
      requires Valid()
      ensures |r| == |names|
    {
      var v, n, t, e := vises, names, tys, exprs;
      seq(|n|, i requires 0 <= i < |n| => Field(v[i], n[i], t[i], e[i]))
    }

    constructor ()
      ensures Valid()
      ensures vises == [] && names == [] && tys == [] && exprs == []
    {
      vises, names, tys, exprs := [], [], [], [];
    }

    /** The four pushes of src/lib.rs:88-91. */
    method Push(f: Field)
      requires Valid()
      modifies this
      ensures Valid()
      ensures vises == old(vises) + [f.vis] && names == old(names) + [f.name]
      ensures tys == old(tys) + [f.ty] && exprs == old(exprs) + [f.expr]
      ensures Rows() == old(Rows()) + [f]
    {
      vises := vises + [f.vis];
      names := names + [f.name];
      tys := tys + [f.ty];
      exprs := exprs + [f.expr];
    }
  }

  /** The body of the loop in `recursive_process_items` (src/lib.rs:75-112),
      for one item: a static tagged for `target` is pushed, a tag error
      aborts, and `include!("file")` reads and parses the file and walks its
      items, each failure of that chain aborting. */
  method ProcessItem(target: Ident, files: FileSystem, fuel: nat, item: Item, out: FieldColumns)
    returns (err: Option<Error>)
    requires out.Valid()
    modifies out
    ensures out.Valid()
    ensures err == ScanItem(target, files, fuel, item).error
    ensures out.Rows() == old(out.Rows()) + ScanItem(target, files, fuel, item).fields
    decreases fuel, 0
  {
    err := None;
    match item
    case Static(attrs, vis, ident, ty, expr) =>
      var tagTarget := FindFieldTarget(attrs);
      if tagTarget.Failure? {
        return Some(tagTarget.error);
      }
      if tagTarget.value == Some(target) {
        out.Push(Field(vis, ident, ty, expr));
      }
    case Macro(path, body) =>
      if GetIdent(path) == Some(IncludeName) {
        if body.None? {
          return Some(IncludeBodyNotString);
        }
        var file := body.value;
        if file !in files {
          return Some(ReadFailed(file));
        }
        if files[file].Unparsable? {
          return Some(ParseFailed(file));
        }
        if fuel == 0 {
          return Some(IncludeDepthExceeded(file));
        }
        err := ProcessItems(target, files, fuel - 1, files[file].items, out);
      }
    case Other =>
  }

  /** `recursive_process_items`: walks `items` in order, pushing the statics
      tagged for `target` onto `out` and descending into the files that
      `include!` items name; returns the first error. Whatever `out` held
      before stays in place as a prefix of each column, and what was pushed
      before an error stays pushed. */
  method ProcessItems(target: Ident, files: FileSystem, fuel: nat, items: seq<Item>, out: FieldColumns)
    returns (err: Option<Error>)
    requires out.Valid()
    modifies out
    ensures out.Valid()
    ensures err == ScanItems(target, files, fuel, items).error
    ensures out.Rows() == old(out.Rows()) + ScanItems(target, files, fuel, items).fields
    decreases fuel, 1
  {
    ghost var done := Nothing;
    for i := 0 to |items|
      invariant done == ScanItems(target, files, fuel, items[..i])
      invariant out.Valid() && done.error.None?
      invariant out.Rows() == old(out.Rows()) + done.fields
    {
      ghost var step := ScanItem(target, files, fuel, items[i]);
      ScanItemsSnoc(target, files, fuel, items, i);
      var e := ProcessItem(target, files, fuel, items[i], out);
      done := Then(done, step);
      if e.Some? {
        ScanItemsStopped(target, files, fuel, items, i + 1);
        return e;
      }
    }
    assert items[..|items|] == items;
    err := None;
  }
}
