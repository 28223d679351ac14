/** simplipy/parse/instruction.py: the instruction records. They carry no
    behaviour beyond their fields; every one keeps the line it was built
    with in `line`. The parent reference to the owning statement is not a
    field: the model identifies a statement by its path (module Paths). */
module Instruction {
  import opened Expression

  datatype Instr =
    | PassI(line: int)
    | GlobalI(line: int, names: seq<string>)
    | NonlocalI(line: int, names: seq<string>)
    | ExprAssignI(line: int, target: string, expr: Expression)
    | CallAssignI(line: int, target: string, funcVar: string, funcArgs: seq<Expression>)
    | IfI(line: int, expr: Expression)
    | ElseI(line: int)
    | WhileI(line: int, expr: Expression)
    | BreakI(line: int)
    | ContinueI(line: int)
    | DefI(line: int, funcVar: string, formals: seq<string>)
    | RetI(line: int, expr: Expression)
}
