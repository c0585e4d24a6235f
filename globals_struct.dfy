/** The `#[globals_struct]` attribute macro (src/lib.rs:12-62): checks that
    the module has content, walks its items, and emits one struct named after
    the module whose fields are the collected statics, plus a `Default` impl
    that initializes each field with its static's initializer. The output is
    described as a value rather than as tokens. */
module GlobalsStructMacro {
  import opened Wrappers
  import opened Syntax
  import opened FieldTag
  import opened Scanner
  import opened Process

  /** `VIS NAME: TY,` inside the struct. */
  datatype StructField = StructField(vis: Visibility, name: Ident, ty: Ty)

  /** `NAME: EXPR,` inside the body of `Default::default`. */
  datatype FieldInit = FieldInit(name: Ident, expr: Expr)

  /** `VIS struct NAME { fields }` with `impl Default for NAME` building
      `NAME { defaults }`. */
  datatype Generated = Generated(vis: Visibility, name: Ident, fields: seq<StructField>, defaults: seq<FieldInit>)

  /** The two repetitions of the `quote!` template (src/lib.rs:48-60). */
  function Emit(vis: Visibility, name: Ident, collected: seq<Field>): (g: Generated)
    ensures g.vis == vis && g.name == name
    ensures |g.fields| == |g.defaults| == |collected|
    ensures forall i :: 0 <= i < |collected| ==> g.fields[i].name == g.defaults[i].name == collected[i].name
  {
    Generated(vis, name,
              seq(|collected|, i requires 0 <= i < |collected| =>
                StructField(collected[i].vis, collected[i].name, collected[i].ty)),
              seq(|collected|, i requires 0 <= i < |collected| =>
                FieldInit(collected[i].name, collected[i].expr)))
  }

  /** Reads the collected statics back off a generated struct and its
      `Default` impl, pairing the `i`-th field with the `i`-th initializer. */
  function Collected(g: Generated): seq<Field>
    requires |g.fields| == |g.defaults|
  {
    seq(|g.fields|, i requires 0 <= i < |g.fields| =>
      Field(g.fields[i].vis, g.fields[i].name, g.fields[i].ty, g.defaults[i].expr))
  }

  /** Emission loses nothing: every static's visibility, name, type and
      initializer can be read back, in collection order. */
  lemma EmitRoundTrip(vis: Visibility, name: Ident, collected: seq<Field>)
    ensures Collected(Emit(vis, name, collected)) == collected
  {
  }

  /** What the macro expands to: an error alone, or the generated struct. */
  function Synthesize(m: ItemMod, files: FileSystem, fuel: nat): (r: Result<Generated, Error>)
    ensures m.content.None? ==> r == Failure(MissingContent)
    ensures m.content.Some? ==>
      (r.Failure? <==> ScanItems(m.ident, files, fuel, m.content.value).error.Some?)
    ensures r.Success? ==>
      r.value.vis == m.vis && r.value.name == m.ident &&
      |r.value.fields| == |r.value.defaults| &&
      forall i :: 0 <= i < |r.value.fields| ==> r.value.fields[i].name == r.value.defaults[i].name
    ensures m.content.Some? && r.Success? ==>
      Collected(r.value) == ScanItems(m.ident, files, fuel, m.content.value).fields
    ensures m.content.Some? && r.Failure? ==>
      Some(r.error) == ScanItems(m.ident, files, fuel, m.content.value).error
  {
    match m.content
    case None => Failure(MissingContent)
    case Some(items) =>
      var scan := ScanItems(m.ident, files, fuel, items);
      if scan.error.Some? then Failure(scan.error.value)
      else
        EmitRoundTrip(m.vis, m.ident, scan.fields);
        Success(Emit(m.vis, m.ident, scan.fields))
  }

  /** `globals_struct`: refuses a module without content, collects its
      statics into four fresh vectors, emits only the error if the walk
      failed, and otherwise builds the struct from the vectors. */
  method GlobalsStruct(m: ItemMod, files: FileSystem, fuel: nat) returns (r: Result<Generated, Error>)
    ensures r == Synthesize(m, files, fuel)
  {
    if m.content.None? {
      return Failure(MissingContent);
    }
    var out := new FieldColumns();
    var e := ProcessItems(m.ident, files, fuel, m.content.value, out);
    if e.Some? {
      return Failure(e.value);
    }
    ghost var collected := ScanItems(m.ident, files, fuel, m.content.value).fields;
    assert out.Rows() == collected;
    var vises, names, tys, exprs := out.vises, out.names, out.tys, out.exprs;
    var fields := seq(|names|, i requires 0 <= i < |names| => StructField(vises[i], names[i], tys[i]));
    var defaults := seq(|names|, i requires 0 <= i < |names| => FieldInit(names[i], exprs[i]));
    r := Success(Generated(m.vis, m.ident, fields, defaults));
    assert fields == Emit(m.vis, m.ident, collected).fields;
    assert defaults == Emit(m.vis, m.ident, collected).defaults;
  }

  /** A module whose items hold no `include!` and whose statics' tags are all
      well formed expands to the struct of exactly its statics tagged with
      the module's own name, in source order. */
  lemma NoIncludeModule(vis: Visibility, name: Ident, items: seq<Item>, files: FileSystem, fuel: nat)
    requires forall i :: 0 <= i < |items| ==> !IsInclude(items[i])
    requires forall i :: 0 <= i < |items| && items[i].Static? ==> FieldTarget(items[i].attrs).Success?
    ensures Synthesize(ItemMod(vis, name, Some(items)), files, fuel) ==
            Success(Emit(vis, name, Selected(name, items)))
  {
    NoIncludeScan(name, files, fuel, items);
  }
}
