/** The small part of the `syn` syntax tree that the `globals_struct` macro
    inspects: paths, attributes and their parsed meta, visibilities, and the
    three kinds of module item it tells apart. Types and initializer
    expressions are carried through untouched, so they are opaque token text. */
module Syntax {
  import opened Wrappers

  type Ident = string

  /** The generic arguments a path segment may carry (`Vec<T>`, `Fn(A) -> B`). */
  datatype PathArguments = NoArguments | AngleBracketed(tokens: string) | Parenthesized(tokens: string)

  datatype PathSegment = PathSegment(ident: Ident, arguments: PathArguments)

  /** A path such as `::a::b<T>`; `leadingColon` records the leading `::`. */
  datatype Path = Path(leadingColon: bool, segments: seq<PathSegment>)

  /** A literal inside an attribute (`#[a = "x"]`, `#[a(1)]`). */
  datatype Lit = Lit(tokens: string)

  /** The structured form of an attribute: `#[p]`, `#[p(n, ...)]` or `#[p = lit]`. */
  datatype Meta =
    | MetaPath(path: Path)
    | MetaList(path: Path, nested: seq<NestedMeta>)
    | MetaNameValue(path: Path, lit: Lit)

  /** One comma-separated element inside `#[p(...)]`. */
  datatype NestedMeta = NestedMetaItem(meta: Meta) | NestedLit(lit: Lit)

  /** An outer attribute. `parsedMeta` is what `Attribute::parse_meta` yields for
      it, `None` when its tokens do not form a meta. */
  datatype Attribute = Attribute(path: Path, parsedMeta: Option<Meta>)

  datatype Visibility = Inherited | Public | Crate | Restricted(path: Path)

  /** A field type and an initializer expression, as the tokens the user wrote. */
  datatype Ty = Ty(tokens: string)
  datatype Expr = Expr(tokens: string)

  /** A module item. `Static` is `static NAME: TY = EXPR;` with its attributes;
      `Macro` is an item-position macro call `path!(...)`, where `body` is its
      argument parsed as a string literal (`None` when it is not one); every
      other kind of item is `Other`. */
  datatype Item =
    | Static(attrs: seq<Attribute>, vis: Visibility, ident: Ident, ty: Ty, expr: Expr)
    | Macro(path: Path, body: Option<string>)
    | Other

  /** `mod NAME { ... }` or `mod NAME;` (content `None`). */
  datatype ItemMod = ItemMod(vis: Visibility, ident: Ident, content: Option<seq<Item>>)

  /** The diagnostics the macro can emit, one per failure site. */
  datatype Error =
    | MissingContent                 // module written as `mod NAME;`
    | DuplicateFieldTag              // two `globals_struct_field` attributes on one static
    | MalformedFieldTag              // the tag is not of the form `#[globals_struct_field(Path)]`
    | MetaUnparsable                 // `parse_meta` failed on the tag
    | IncludeBodyNotString           // `include!(...)` whose argument is not a string literal
    | ReadFailed(file: string)       // the included file could not be read
    | ParseFailed(file: string)      // the included file is not valid Rust
    | IncludeDepthExceeded(file: string)  // the model's bound on include nesting was reached

  /** The one-segment path that names `id` and nothing else. */
  function IdentPath(id: Ident): Path {
    Path(false, [PathSegment(id, NoArguments)])
  }

  /** `syn::Path::get_ident`: the identifier when the path is exactly one
      plain identifier (no leading `::`, one segment, no arguments). */
  function GetIdent(p: Path): (r: Option<Ident>)
    ensures forall id :: r == Some(id) <==> p == IdentPath(id)
  {
    if !p.leadingColon && |p.segments| == 1 && p.segments[0].arguments.NoArguments? then
      Some(p.segments[0].ident)
    else
      None
  }
}
