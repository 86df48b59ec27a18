/** The types of Seron and their sizes. */
module Types {
  datatype Option<+T> = None | Some(value: T)

  datatype Type =
    | Void | Char | Int | Long
    | Object(name: string)
    | Pointer(pointee: Type)
    | Procedure(sig: Signature)

  datatype Param = Param(ident: string, ty: Type)

  datatype Signature = Signature(params: seq<Param>, ret: Type)

  /** Same type kind, which is all the code generator compares. */
  predicate SameKind(s: Type, t: Type) {
    match s
    case Void => t.Void?
    case Char => t.Char?
    case Int => t.Int?
    case Long => t.Long?
    case Object(_) => t.Object?
    case Pointer(_) => t.Pointer?
    case Procedure(_) => t.Procedure?
  }

  /** Bytes a value of the type takes; `void` has no size in the program, and takes none here. */
  function Size(t: Type): nat {
    match t
    case Void => 0
    case Char => 1
    case Int => 4
    case _ => 8
  }

  /** Adds padding up to the next multiple of 16; a multiple of 16 gets 16 more. */
  function Align16(i: nat): nat {
    i + (16 - i % 16)
  }
}
