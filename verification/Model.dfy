/** The audit finding shared by the gates and queues. */
module Model {
  import opened Wrappers

  datatype Finding = Finding(
    severity: string, category: string, path: string, problem: string, agentFix: string,
    checkId: string, fingerprint: string, ruleId: Option<string>, tlr: Option<string>,
    lane: Option<string>, owner: Option<string>, line: Option<nat>, hardness: string)
}
