/**
 * The fragment of TypeScript syntax the generator emits: the expressions,
 * object members and top-level statements of a generated token module.
 */
module Syntax {
  import opened Results

  datatype Expr =
    | Identifier(text: string)
    | StringLit(text: string)
      /** A numeric literal; the factory only builds non-negative ones, so a negative number is `PrefixMinus` over its magnitude. */
    | NumLit(magnitude: real)
    | PrefixMinus(operand: Expr)
    | True
    | False
      /** `null`, optionally followed by a `/* comment */`. */
    | Null(comment: Option<string>)
    | PropAccess(target: Expr, name: string)
    | ElemAccess(target: Expr, key: Expr)
    | ObjectLit(members: seq<Member>)

  /** An object literal member: `key: value` or `get key() { return body; }`. */
  datatype Member = Property(key: Expr, value: Expr) | GetAccessor(key: Expr, body: Expr)

  datatype Stmt =
      /** `import * as binding from "path";` */
    | Import(binding: Expr, path: string)
      /** `export type name = keyof typeof query;` */
    | TypeAlias(name: Expr, query: Expr)
      /** `export const name = init;` */
    | ConstExport(name: Expr, init: Expr)

  /** The property name a member key spells: the identifier's text or the string literal's contents. */
  function KeyText(key: Expr): string
  {
    match key
    case Identifier(t) => t
    case StringLit(t) => t
    case _ => ""
  }
}
