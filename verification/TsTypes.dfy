/** The fragment of the TypeScript type syntax tree that the lint rules look at. */
module TsTypes {
  import opened Prelude

  datatype TsType =
    | UnknownKeyword
    | AnyKeyword
    | ObjectKeyword
    | NeverKeyword
    | Parenthesized(inner: TsType)
    | TypeOperator(operator: string, operand: TsType)
    | TypeLiteral(members: seq<Member>)
    | UnionType(types: seq<TsType>)
    | IntersectionType(types: seq<TsType>)
    // A reference has no identifier when its name is qualified (`a.b`).
    | TypeReference(identifier: Option<string>, arguments: seq<TsType>)
    | OtherType(text: string)

  datatype Member =
    | PropertySignature(optional: bool, annotation: Option<TsType>)
    | OtherMember(description: string)
}
