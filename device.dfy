/** The record the registry keeps for each discovered renderer. */
module DeviceRecord {

  /**
   * Time is an integer count of nanoseconds, the unit of Go's
   * `time.Duration`; the clock itself is an input of every operation
   * that reads it.
   */
  type Time = int

  /** One registered device; `usn` is the uuid part of the advertised USN. */
  datatype Device = Device(
    usn: string,
    location: string,
    server: string,
    friendlyName: string,
    lastSeen: Time,
    controlURL: string)
}
