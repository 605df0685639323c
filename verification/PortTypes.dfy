/** The type names of port rights in a message (include/mach/message.h). */
module PortTypes {
  const MOVE_RECEIVE: nat := 16
  const MAKE_SEND_ONCE: nat := 21

  /** MACH_MSG_TYPE_PORT_ANY. */
  predicate IsPort(name: nat) { MOVE_RECEIVE <= name <= MAKE_SEND_ONCE }
}
