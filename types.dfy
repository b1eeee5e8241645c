/**
 * The record shapes shared by the excuse generator, the history store and
 * the chat widget.
 */
module Types {

  datatype Option<+T> = None | Some(value: T)

  /** The five fields a generation request carries; the detail is optional. */
  datatype ExcuseRequest = ExcuseRequest(
    situation: string,
    recipient: string,
    reasonType: string,
    tone: string,
    additionalDetails: Option<string>)

  /**
   * One stored excuse. The favourite flag is optional in the record shape:
   * records written by older code, or restored from storage, may lack it.
   */
  datatype GeneratedExcuse = GeneratedExcuse(
    id: string,
    text: string,
    timestamp: int,
    isFavorite: Option<bool>)

  /** A missing flag reads as "not a favourite", as JavaScript truthiness does. */
  predicate IsFavorite(e: GeneratedExcuse) {
    e.isFavorite == Some(true)
  }

  datatype Role = User | Model

  /** A chat turn; the source wraps the text in a one-element `parts` list. */
  datatype ChatMessage = ChatMessage(role: Role, text: string)
}
