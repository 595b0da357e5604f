/**
 * Small value types shared by the listing view and the create form.
 */
module Common {

  /** A value that may be absent: JavaScript's `null` / `undefined`. */
  datatype Option<+T> = None | Some(value: T)

  /**
   * A transient notification. Only which kind is raised and which text
   * it carries is modelled; its position and duration are presentation.
   */
  datatype Toast = SuccessToast(text: string) | ErrorToast(text: string)
}
