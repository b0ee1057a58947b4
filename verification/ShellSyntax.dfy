/** The abstract syntax of the supported shell language, as the parser leaves it. */
module ShellSyntax {
  import opened Store

  /** The parts of a word; literal parts are already unquoted. */
  datatype Part =
    | Lit(text: string)
    | Var(name: string)
    | Default(name: string, word: seq<Part>)   // ${name:=word}
    | Subst(body: seq<Stmt>)                   // $(body)

  datatype Word = Word(parts: seq<Part>)

  datatype Assign = Assign(name: string, value: seq<Part>, append: bool, naked: bool)

  /** An argument of export; a dynamic one is not a name. */
  datatype Exportable = Dynamic | Named(assign: Assign)

  datatype RedirOp = ReadFrom | HereDoc | HereString | DupOut | WriteTo | AppendTo | WriteAll | AppendAll

  datatype Redir = Redir(op: RedirOp, fd: int, word: seq<Part>)

  datatype Cmd =
    | Empty
    | Simple(assigns: seq<Assign>, words: seq<Word>)
    | Block(body: seq<Stmt>)
    | Subshell(body: seq<Stmt>)
    | Pipe(left: Stmt, right: Stmt, all: bool)
    | AndOr(isAnd: bool, first: Stmt, second: Stmt)
    | If(cond: seq<Stmt>, thn: seq<Stmt>, els: Option<Cmd>)
    | For(name: string, overArgs: bool, items: seq<Word>, body: seq<Stmt>)
    | While(cond: seq<Stmt>, body: seq<Stmt>, until: bool)
    | Func(name: string, fbody: Stmt)
    | Export(exports: seq<Exportable>)

  datatype Stmt = Stmt(cmd: Cmd, redirs: seq<Redir>, negated: bool)

  /** The words whose expansion is their own text. */
  predicate IsLiteral(w: seq<Part>) { forall p :: p in w ==> p.Lit? }

  function LiteralText(w: seq<Part>): string
    requires IsLiteral(w)
  {
    if w == [] then "" else w[0].text + LiteralText(w[1..])
  }
}
