// What the configuration parser hands the generators for one parameter:
// its type and its domain, each a list of layers, outermost first. A
// container layer is followed by the layer of its elements; a dict layer
// by one layer holding the key and value lists; a class layer carries its
// fields.
module Layers {
  import opened VarLookup

  /**
   * One layer of a parameter's type: a builtin type with its keywords, a
   * class with the types of its fields, or the key and value types that
   * follow a dict layer.
   */
  datatype Layer =
    | Prim(typeName: string, keywords: seq<string>)
    | Cls(className: string, fields: seq<Field>)
    | KeyVal(keyTypes: seq<Layer>, valTypes: seq<Layer>)

  /** A field (name, [types]): the parser wraps the field's type list in a list of one. */
  datatype Field = Field(fieldName: string, types: seq<TypeList>)

  datatype TypeList = TypeList(layers: seq<Layer>)

  /**
   * One layer of a parameter's domain: a domain string (a variable, a range
   * with a variable endpoint) or an integer range or list; an explicit list
   * of booleans or of strings; a class with the domains of its fields; or
   * the key and value domains that follow a dict layer.
   */
  datatype ValLayer =
    | VDomain(d: Domain)
    | VBools(bs: seq<bool>)
    | VStrs(ss: seq<string>)
    | VFields(className: string, fields: seq<FieldVals>)
    | VKeyVal(keyVals: seq<ValLayer>, valVals: seq<ValLayer>)

  /** A field's domain (name, [domains]), wrapped like its type. */
  datatype FieldVals = FieldVals(fieldName: string, lists: seq<ValList>)

  datatype ValList = ValList(layers: seq<ValLayer>)
}
