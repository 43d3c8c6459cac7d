/** Types shared by every part of the model. */
module Base {

  /** A value that may be missing: `null`/`undefined` in the page's script. */
  datatype Option<T> = None | Some(value: T)

  /** One MIDI data byte as the transport delivers it (a `Uint8Array` element). */
  type Byte = x: int | 0 <= x < 0x100

  /** The opaque, stable identifier of a MIDI port (`port.id`). */
  type PortId = string
}
