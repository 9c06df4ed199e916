/**
 * The part of the Noir syntax tree that the analyzer looks at.
 *
 * The tree is produced by an external parser; only the shapes the traversal
 * distinguishes are modelled. Every other node kind is collapsed into one
 * "other" variant, because the analyzer never looks inside it.
 */
module Syntax {

  /** A byte-offset range into the analysed source file, `start..end`. */
  datatype Span = Span(start: nat, end: nat)

  /** An identifier token: its text and where it occurs. */
  datatype Ident = Ident(name: string, span: Span)

  /** How a path is anchored: `foo::bar`, `crate::foo`, `dep::foo`, `super::foo`. */
  datatype PathKind = Plain | Crate | Dep | Super

  /** A path; each segment is represented by its identifier. */
  datatype Path = Path(kind: PathKind, segments: seq<Ident>)

  /** Expressions: calls and variable references are told apart, the rest are not. */
  datatype Expression =
    | Call(call: CallExpression)
    | Variable(path: Path)
    | OtherExpression

  /** A call `func(arguments)`; `isMacroCall` marks `f!(...)`. */
  datatype CallExpression = CallExpression(func: Expression, arguments: seq<Expression>, isMacroCall: bool)

  /** The statement kinds of the Noir front end. */
  datatype StatementKind =
    | LetStatement
    | ExpressionStatement(expression: Expression)
    | AssignStatement
    | ForStatement
    | LoopStatement
    | WhileStatement
    | BreakStatement
    | ContinueStatement
    | ComptimeStatement
    | SemiStatement
    | InternedStatement
    | ErrorStatement

  datatype Statement = Statement(kind: StatementKind, span: Span)

  /** `pub`, `pub(crate)` and no modifier. */
  datatype ItemVisibility = Private | PublicCrate | Public

  /**
   * A function definition: its name identifier, its visibility, the statements
   * of its body and the location the front end records for it.
   */
  datatype FunctionDefinition = FunctionDefinition(
    name: Ident,
    visibility: ItemVisibility,
    body: seq<Statement>,
    location: Span)

  /** Top-level items: functions, and every other kind of item collapsed into one. */
  datatype ItemKind = Function(def: FunctionDefinition) | OtherItem

  datatype Item = Item(kind: ItemKind, location: Span)

  /** The parsed form of one source file. */
  datatype ParsedModule = ParsedModule(items: seq<Item>)
}
