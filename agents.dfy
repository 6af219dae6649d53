/** The part of the Agents SDK `Agent` object that the playground programs
    configure: a name, the declared structured output type, the function tools
    and the list of agents it may hand off to. Instructions, model name and model
    settings only steer the language model and are not modelled. */
module Agents {

  /** `output_type`: absent (plain text) or the `TriageDecision` model. */
  datatype OutputType = PlainText | TriageDecisionType

  class Agent {
    const name: string
    const outputType: OutputType
    /** Names of the function tools passed as `tools=[...]`. */
    const tools: seq<string>
    /** Reassigned after construction to close the handoff cycle. */
    var handoffs: seq<Agent>

    constructor (name: string, outputType: OutputType, tools: seq<string>, handoffs: seq<Agent>)
      ensures this.name == name && this.outputType == outputType
      ensures this.tools == tools && this.handoffs == handoffs
    {
      this.name := name;
      this.outputType := outputType;
      this.tools := tools;
      this.handoffs := handoffs;
    }

    /** `agent.handoffs = [...]`. */
    method SetHandoffs(hs: seq<Agent>)
      modifies this
      ensures handoffs == hs
    {
      handoffs := hs;
    }
  }
}
