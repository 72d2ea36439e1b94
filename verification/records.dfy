/**
 * The records the screens keep in the key-value store. They are stored as
 * JSON without a schema, and different screens write different shapes of the
 * same record, so every field some screen may leave out is optional.
 */
module Records {
  import opened Common

  /**
   * An entry of the `appointments` collection. The booking screen writes
   * `id, doctor, specialty, date, time`; the patient history screen reads
   * `userId, doctorId, doctorName, status, patientName, ...`; the admin screen
   * writes `id, patientName, status, doctor, specialty, date, time,
   * patientEmail, patientPhone, notes`. The union of those fields is kept here.
   */
  datatype Appointment = Appointment(
    id: Option<string>,
    userId: Option<string>,
    doctorId: Option<string>,
    doctor: Option<string>,
    doctorName: Option<string>,
    specialty: Option<string>,
    date: Option<string>,
    time: Option<string>,
    status: Option<string>,
    patientName: Option<string>,
    patientEmail: Option<string>,
    patientPhone: Option<string>,
    notes: Option<string>)

  /**
   * An entry of `registeredUsers`, also kept whole under `currentUser`.
   * Registration writes every field but `role` and `phone`, which other
   * screens read; the profile screen starts from a record without `id` and
   * `registrationDate`.
   */
  datatype User = User(
    id: Option<string>,
    username: string,
    name: string,
    email: string,
    password: string,
    contactNumber: string,
    address: string,
    birthday: string,
    registrationDate: Option<string>,
    role: Option<string>,
    phone: Option<string>)

  /** An entry of `adminNotifications` or of a patient's `notifications_<email>` list. */
  datatype Notification = Notification(
    id: string,
    title: string,
    message: Option<string>,
    body: Option<string>,
    read: Option<bool>,
    timestamp: string)
}
