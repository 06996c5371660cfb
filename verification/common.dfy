/** Shared vocabulary of the BLE client model: optional values, unsigned
    bytes as they come off the radio, and the identity of a peripheral. */
module Common {

  /** A value that may be absent (Kotlin's nullable `T?`). */
  datatype Option<T> = None | Some(value: T)

  /** One payload byte read as unsigned (`Byte.toUByte().toInt()`). */
  type uint8 = x: int | 0 <= x < 256

  /** A peripheral. Two devices are the same device exactly when their
      hardware addresses agree, as for the platform's device objects. */
  datatype Device = Device(address: string)
}
