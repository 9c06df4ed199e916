/**
 * The analysis context: what one traversal has learnt about a module.
 *
 * It holds the parsed module it was created for, the function definitions
 * by name and the call expressions grouped by the textual name of the callee.
 * The traversal fills both maps in place; lint rules only read them.
 */
module Context {
  import opened Syntax

  class AstContext {
    const parsedModule: ParsedModule
    var functionDefinitions: map<string, FunctionDefinition>
    var functionCalls: map<string, seq<CallExpression>>

    /** A context for `parsedModule` with nothing recorded yet. */
    constructor (parsedModule: ParsedModule)
      ensures this.parsedModule == parsedModule
      ensures functionDefinitions == map[] && functionCalls == map[]
    {
      this.parsedModule := parsedModule;
      functionDefinitions := map[];
      functionCalls := map[];
    }
  }
}
