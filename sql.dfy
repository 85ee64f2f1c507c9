/** The SQL tree the core builds. Rendering it to a dialect's text is done
    elsewhere; here the tree is an opaque value built from a few constructors. */
module Sql {
  import opened Types

  datatype Sql =
    | Name(ty: Type, name: string)                         // a column or table name
    | Cast(ty: Type, typeName: string, arg: Sql)           // CAST(arg AS typeName)
    | Select(ty: Type, source: Sql, fields: seq<Sql>)
    | ColumnAlias(value: Sql, alias: string)               // value AS alias
    | TableName(ty: Type, name: string)
    | EmptyList(ty: Type)                                  // the untyped empty list
    | NullValue                                            // the null literal
    | UnknownCode                                          // code of the unknown sentinel
    | Fragment(text: string)                               // any other fragment built by callers
}
