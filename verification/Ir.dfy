/** The intermediate representation of a rule (pkg/ir/ast.go). */
module Ir {

  /** A literal operand. Numbers keep their source text. */
  datatype Literal = Str(text: string) | Num(text: string)

  datatype Node =
    | Logic(op: string, args: seq<Node>)
    | Compare(field: string, op: string, val: Literal)
    | Between(field: string, lo: Literal, hi: Literal)
    | In(field: string, vals: seq<Literal>, negate: bool)
    | Like(field: string, pattern: string, negate: bool)
    | IsNull(field: string, negate: bool)
    | Not(arg: Node)
}
