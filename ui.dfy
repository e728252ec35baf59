/** The status line both drafts show under the listening button. */
module Ui {
  /** Which state the status line names; its text and colour follow from it. */
  datatype Status = Inactive | ListeningForKeyword | Thinking | Speaking
}
