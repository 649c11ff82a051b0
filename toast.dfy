/** The notification the client pages raise through `useToast`. */
module Toasts {
  /** A toast's title, its description, and whether it uses the destructive variant. */
  datatype Toast = Toast(title: string, description: string, destructive: bool)
}
