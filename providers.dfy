/**
 * What an account provider module exports: its name, an optional signup
 * page, the questions that make up an account record, and which of the
 * deployment functions it implements.
 */
module Providers {
  import opened Wrappers
  import opened Cli
  import Js

  /** The exported functions, by name (`deploy`, `undeploy`, `deployments`, `deployVolosProxy`, `deployProject`). */
  datatype Capability = DeployFn | UndeployFn | DeploymentsFn | DeployVolosProxyFn | DeployProjectFn

  datatype Provider = Provider(name: string, signupUri: Option<string>, fields: seq<Question>, capabilities: set<Capability>)

  /** A plain `{ name, message }` prompt entry: a text input with no default. */
  function Field(name: string, message: string): Question {
    Question(name, message, Input, Js.Undefined)
  }
}
