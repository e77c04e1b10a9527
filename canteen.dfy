/** The value every menu source produces: a title and one text entry per weekday. */
module Canteen {

  /** A `(title, menu)` tuple of kantine.py; `days[0]` is Monday. */
  datatype Menu = Menu(title: string, days: seq<string>)
}
