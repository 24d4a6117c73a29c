/** `attribute.KeyValue`, with its value in printed form. */
module Attributes {
  datatype Attr = Attr(key: string, value: string)
}
