/** The message struct whose fields the plugin overwrites. */
module Messages {
  import opened Dns

  class Message {
    var id: uint16
    var response: bool
    var opcode: uint16
    var authoritative: bool
    var truncated: bool
    var recursionDesired: bool
    var recursionAvailable: bool
    var authenticatedData: bool
    var checkingDisabled: bool
    var rcode: uint16
    var question: seq<Question>
    var answer: seq<RR>
    var ns: seq<RR>
    var extra: seq<RR>

    function View(): Msg
      reads this
    {
      Msg(id, response, opcode, authoritative, truncated, recursionDesired, recursionAvailable,
          authenticatedData, checkingDisabled, rcode, question, answer, ns, extra)
    }

    /** A message of its own with the given contents, as Copy and Unpack make it. */
    constructor (m: Msg)
      ensures View() == m
    {
      id, response, opcode := m.id, m.response, m.opcode;
      authoritative, truncated := m.authoritative, m.truncated;
      recursionDesired, recursionAvailable := m.recursionDesired, m.recursionAvailable;
      authenticatedData, checkingDisabled, rcode := m.authenticatedData, m.checkingDisabled, m.rcode;
      question, answer, ns, extra := m.question, m.answer, m.ns, m.extra;
    }
  }
}
