/** Points in time, shared by the session and the attendance records. */
module Time {
  /** A `DateTime` value, as its tick count; the model only copies timestamps into records. */
  type Timestamp = int
}
