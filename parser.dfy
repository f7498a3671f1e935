/** The capability types of parser/parser.go. A block definition always has a
    grammar (its Spec()); being a VariableInjector and being a FunctionInjector
    are two independent optional capabilities, each a function from the value
    decoded for the block to the names it injects. */
module Parser {
  import opened Base
  import opened Hcl

  type InjectableVariables = map<string, Value>
  type InjectableFunctions = map<string, Func>

  datatype BlockDefinition = BlockDefinition(
    spec: Grammar,
    variables: Option<Value -> InjectableVariables>,
    functions: Option<Value -> InjectableFunctions>)
  {
    predicate IsVariableInjector() { variables.Some? }
    predicate IsFunctionInjector() { functions.Some? }
  }

  /** A definition that registers itself under its own block name. */
  datatype NamedBlockDefinition = NamedBlockDefinition(name: string, definition: BlockDefinition)

  /** Named definitions, listed in the order they are to be processed. */
  type NamedBlockDefinitions = seq<NamedBlockDefinition>
}
