/** The steps of a plan, as the planner hands them on. */
module Plan {
  import opened Collections

  /** A keyword argument: a string, or anything else. */
  datatype Arg = Text(text: string) | Other(tag: int)

  /** `identity` stands for the identity of the Python object. */
  datatype ToolCall = ToolCall(
    identity: nat,
    tool: string,
    kwargs: map<string, Arg>,
    stepId: Option<string>,
    dependsOn: seq<string>)
}
