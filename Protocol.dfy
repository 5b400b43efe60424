/** The messages the browser client and the relay server exchange over the socket. */
module Protocol {

  /** Client to server, event 'command': the (translated) command name and its arguments. */
  datatype CommandData = CommandData(command: string, args: seq<string>)

  /** Server to client, event 'output': a message and whether it reports an error. */
  datatype OutputEvent = OutputEvent(message: string, isError: bool)
}
