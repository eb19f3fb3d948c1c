/** Records exchanged with the assistant service (mistral/chat.rs); the
    network calls themselves are not part of this model. */
module Chat {
  import opened Wrappers

  /** One follow-up task of a meeting summary. */
  datatype ActionItem = ActionItem(description: string, assignee: Option<string>)

  /** The structured summary of a meeting. */
  datatype Summary = Summary(keyPoints: seq<string>, decisions: seq<string>, actionItems: seq<ActionItem>)
}
