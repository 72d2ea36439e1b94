# Clinic booking app: a verified model of its screen logic

The app is a React Native clinic-booking app for patients and one
administrator. Every screen reads and writes collections in AsyncStorage, a
device-local key-value store holding JSON. The stored collections are
`appointments`, `doctors`, `registeredUsers`, `currentUser`,
`adminNotifications` and one `notifications_<email>` list per patient. This
project models, in Dafny, what each screen's handlers do to its component
state and to that store, and proves what they keep and what they change.

Modelling choices:

- **The store.** `KeyValueStore.Store` is a map from key to a parsed value.
  `KeyValueStore.AsyncStorage` is the one shared store object. It is a class
  with one field, `data`. Each screen class holds a reference to it.
  A screen method that writes the store says in its `ensures` which keys it
  writes and with what (`storage.data == old(storage.data)[key := ...]`).
- **Screens.** A screen whose handlers update `useState` state becomes a
  class. Its fields are that state, and its methods are the handlers.
  The list transforms inside the handlers (`map`, `filter`, spread) are
  functions. Each has its own lemmas: order, idempotence, what stays the
  same. The dashboard, the login decision, the badge count and the profile
  edits are pure, so they are functions only.
- **JavaScript values.** Optional fields of stored records are `Option`s.
  `x || d` is `Common.OrDefault`: an absent or empty string gives `d`.
  `x ?? d` tests for absence only. `a === b` on two optional ids holds when
  both are absent. String `<` is the lexicographic `Text.Before`. Today's
  date, `Date.now()` ids and ISO timestamps are parameters.
- **Regular expressions** are hand-coded as character-class checks. For the
  e-mail and password patterns a ghost definition follows the pattern's
  structure (`Register.EmailPattern`, `Register.StrengthByPatterns`), and a
  lemma proves that the executable check agrees with it.
- **Confirmations.** An `Alert` confirmation is taken as answered "Yes".
  Calendar limits (`minDate`) and lists of offered choices become
  preconditions of the methods that model a pick.

Some behaviour of the app is surprising. The model keeps it as written and
proves it as a property:

- Cancelling an appointment in the patient history writes back only the
  current user's records. Every other user's appointments are dropped
  (`AppointmentHistory.CancelDropsOtherUsers`).
- A booking stores no `userId`, so the booking patient never sees it in the
  history (`AppointmentHistory.BookedRecordsAreInvisible`).
- The admin's "cancel" deletes the record. The normalised list it writes has
  lost every `userId`, so afterwards no patient with an id sees any
  appointment (`AdAppointments.AdminCancelHidesPatientRecords`).
- The home reschedule screen has no past-date check
  (`RescheduleHome.HomeSkipsPastCheck`).
- The registration form's validity reads stored errors, which are refreshed
  only on blur. A password edited after the confirmation was checked can
  still pass (`Register.StaleErrorsKeepFormValid`).
- The admin colour table spells 'cancelled'; the patient table spells
  'canceled', which is the value the app writes
  (`AdAppointments.CanceledColoursDiffer`).
- Login compares with `userEmail` and `userPassword`, which registration
  never writes (`Login.RegistrationDoesNotChangeLogin`).

## Model

| member | source | states |
|---|---|---|
| Doctors.DefaultTimeSlotsShape | data/doctors.ts:1-4 | The default slots are six distinct entries, from '8:00 AM' to '4:30 PM' |
| Doctors.DefaultDoctorsShape | data/doctors.ts:16-38 | The seed has two doctors, ids '1' and '2'. Each starts with the default slots and with only `true` flags. Dr. Sarah Johnson has two unavailable dates and Dr. Michael Lee none |
| SharedState.Without | data/sharedState.ts:7-9 | Unsubscribing removes every registration of the callback and keeps every other callback |
| SharedState.WithoutKeepsOrder | data/sharedState.ts:8 | Unsubscribing works piecewise, so the other callbacks keep their relative order |
| SharedState.WithoutTwice | data/sharedState.ts:8 | Calling an unsubscribe function twice has the effect of calling it once |
| SharedState.WithoutAbsent | data/sharedState.ts:8 | Unsubscribing a callback that is not registered changes nothing |
| SharedState.SubscribeThenUnsubscribe | data/sharedState.ts:5-9 | Subscribing a new callback and then unsubscribing it restores the registry |
| SharedState.UpdateRegistry.constructor | data/sharedState.ts:3 | The registry starts empty |
| SharedState.UpdateRegistry.Subscribe | data/sharedState.ts:5-6 | The callback goes last and earlier entries are unchanged |
| SharedState.UpdateRegistry.Unsubscribe | data/sharedState.ts:7-9 | The registry becomes `Without(old registry, cb)` |
| SharedState.UpdateRegistry.NotifyUpdates | data/sharedState.ts:12-14 | Each entry is invoked once, in registration order, and the registry is unchanged |
| DoctorsScreen.ToggleDate | screens/admin/DoctorsScreen.tsx:63-68 | A date marked `true` is removed; any other date is set to `true`; every other date keeps its entry |
| DoctorsScreen.ToggleDateTwice | screens/admin/DoctorsScreen.tsx:63-68 | Toggling a date twice restores the map when the date was absent or `true` |
| DoctorsScreen.ToggleDateTwiceFromFalse | screens/admin/DoctorsScreen.tsx:64-67 | For every map and date stored as `false`: two toggles remove the date and keep every other entry |
| DoctorsScreen.ToggleDateKeepsMarksTrue | screens/admin/DoctorsScreen.tsx:63-68 | Toggling keeps the invariant that every stored flag is `true` |
| DoctorsScreen.AddSlot | screens/admin/DoctorsScreen.tsx:86 | The trimmed slot is appended last and nothing is checked for duplicates |
| DoctorsScreen.RemoveSlot | screens/admin/DoctorsScreen.tsx:105 | Every copy of the slot goes and every other slot stays |
| DoctorsScreen.RemoveSlotKeepsOrder | screens/admin/DoctorsScreen.tsx:105 | Removal works piecewise, so the remaining slots keep their order |
| DoctorsScreen.RemoveAbsentSlot | screens/admin/DoctorsScreen.tsx:105 | Removing a slot that is not offered changes nothing |
| DoctorsScreen.AddThenRemoveSlot | screens/admin/DoctorsScreen.tsx:79-114 | Adding a new slot and then removing it restores the doctor's slots |
| DoctorsScreen.IsBlank | screens/admin/DoctorsScreen.tsx:80 | The input is blank exactly when every character is white space |
| DoctorsScreen.ToggledIn | screens/admin/DoctorsScreen.tsx:61-72 | Only doctors with the selected id have the date toggled; the others and the list order are unchanged |
| DoctorsScreen.SlotAddedIn | screens/admin/DoctorsScreen.tsx:82-90 | Only doctors with the selected id get the slot appended; the rest are unchanged |
| DoctorsScreen.SlotRemovedIn | screens/admin/DoctorsScreen.tsx:101-109 | Only doctors with the selected id lose the slot; the rest are unchanged |
| DoctorsScreen.FindById | screens/admin/DoctorsScreen.tsx:75 | The result is present exactly when some doctor has the id, and it is then the first doctor in the list with that id |
| DoctorsScreen.ToggledInTwice | screens/admin/DoctorsScreen.tsx:61-72 | Toggling the same date twice restores the whole doctor list when no stored flag is `false` |
| DoctorsScreen.ReselectAfterToggle | screens/admin/DoctorsScreen.tsx:74-75 | After a toggle the re-selected doctor is the updated record with the selected id |
| DoctorsScreen.DoctorsScreen.constructor | screens/admin/DoctorsScreen.tsx:24-28 | The list is empty, nothing is selected and the slot input is empty |
| DoctorsScreen.DoctorsScreen.LoadDoctors | screens/admin/DoctorsScreen.tsx:36-50 | The stored list is loaded if there is one; otherwise the seed is stored and loaded |
| DoctorsScreen.DoctorsScreen.SelectDoctor | screens/admin/DoctorsScreen.tsx:126-131 | Tapping a card selects that doctor and changes nothing else |
| DoctorsScreen.DoctorsScreen.Commit | screens/admin/DoctorsScreen.tsx:116-122 | The edited list replaces state and the `doctors` key, and the doctor with the selected id is re-selected |
| DoctorsScreen.DoctorsScreen.ToggleDateAvailability | screens/admin/DoctorsScreen.tsx:55-77 | Nothing changes with no selection or a date before today. Otherwise the selected doctor's date is toggled, and the list is stored and re-selected |
| DoctorsScreen.DoctorsScreen.AddTimeSlot | screens/admin/DoctorsScreen.tsx:79-96 | Blank input or no selection changes nothing. Otherwise the trimmed slot is appended, the input cleared and the list stored |
| DoctorsScreen.DoctorsScreen.RemoveTimeSlot | screens/admin/DoctorsScreen.tsx:98-114 | With a selection the slot is removed from that doctor and the list is stored; without one nothing changes |
| BookAppointment.AvailableTimeSlotsShape | screens/patient/BookAppointmentScreen.tsx:17-23 | The offered times are five distinct fixed entries, none of them spelled like a default doctor slot |
| BookAppointment.NewAppointment | screens/patient/BookAppointmentScreen.tsx:35-41 | The record holds the id, the doctor's name and specialty, and the date and time. It has no userId, doctorId or status |
| BookAppointment.Booked | screens/patient/BookAppointmentScreen.tsx:44-46 | The stored list grows by one: the earlier records unchanged, the new one last |
| BookAppointment.BookingTwiceKeepsBoth | screens/patient/BookAppointmentScreen.tsx:44-48 | Booking the same doctor, date and time twice stores both records |
| BookAppointment.BookAppointmentScreen.constructor | screens/patient/BookAppointmentScreen.tsx:26-30 | Date and time start empty; the doctor comes from the route |
| BookAppointment.BookAppointmentScreen.PickDate | screens/patient/BookAppointmentScreen.tsx:96-100 | A day no earlier than today becomes the date, and the time is cleared |
| BookAppointment.BookAppointmentScreen.PickTime | screens/patient/BookAppointmentScreen.tsx:130 | A fixed time becomes the selected time once a date is chosen |
| BookAppointment.BookAppointmentScreen.HandleBook | screens/patient/BookAppointmentScreen.tsx:32-70 | An empty date or time writes nothing. Otherwise the record is appended to `appointments` and both selections are cleared |
| AppointmentHistory.WithPatientDefaults | screens/patient/AppointmentHistoryScreen.tsx:65-71 | The user's name (or 'Patient'), e-mail and phone are copied in. A missing or empty status becomes 'pending'. The other fields are kept |
| AppointmentHistory.Owns | screens/patient/AppointmentHistoryScreen.tsx:64 | A record without `userId` belongs exactly to a user without id. Two present ids must be equal |
| AppointmentHistory.UserAppointments | screens/patient/AppointmentHistoryScreen.tsx:63-71 | Exactly the records whose userId equals the user's id, with defaults filled in |
| AppointmentHistory.UserAppointmentsConcat | screens/patient/AppointmentHistoryScreen.tsx:63-64 | Loading works piecewise, so the shown records keep the stored order |
| AppointmentHistory.UserAppointmentsDropsOthers | screens/patient/AppointmentHistoryScreen.tsx:63-64 | When another user's record is stored, the loaded list is shorter than the stored one |
| AppointmentHistory.UserAppointmentsNoneOwned | screens/patient/AppointmentHistoryScreen.tsx:63-64 | When no stored record belongs to the user, the list is empty |
| AppointmentHistory.BookedRecordsAreInvisible | screens/patient/AppointmentHistoryScreen.tsx:63-64 | A booking leaves the list of every user with an id unchanged |
| AppointmentHistory.CancelIn | screens/patient/AppointmentHistoryScreen.tsx:91-93 | Only records with the id get status 'canceled'; the length and all other records are unchanged |
| AppointmentHistory.CancelIdempotent | screens/patient/AppointmentHistoryScreen.tsx:91-93 | Cancelling twice is cancelling once |
| AppointmentHistory.CancelDropsOtherUsers | screens/patient/AppointmentHistoryScreen.tsx:91-94 | The collection written back holds only the user's records and is shorter when other users had records |
| AppointmentHistory.CancelRemovesActions | screens/patient/AppointmentHistoryScreen.tsx:192 | After a cancel the cancelled record offers no actions, and every other record offers what it did |
| AppointmentHistory.Visible | screens/patient/AppointmentHistoryScreen.tsx:255-258 | 'All' shows every record; another filter shows the records whose status equals it case-insensitively |
| AppointmentHistory.AllShowsEverything | screens/patient/AppointmentHistoryScreen.tsx:256 | The 'All' filter shows the list unchanged |
| AppointmentHistory.CanceledRecordFilter | screens/patient/AppointmentHistoryScreen.tsx:255-258 | A cancelled record is shown under 'Canceled' and not under 'Pending' or 'Confirmed' |
| AppointmentHistory.StatusColor | screens/patient/AppointmentHistoryScreen.tsx:125-133 | Green for 'confirmed', orange for 'pending', red for 'declined' and 'canceled', blue otherwise, ignoring case |
| AppointmentHistory.LoadedStatusColor | screens/patient/AppointmentHistoryScreen.tsx:65-71 | A record loaded without a status shows the pending colour |
| Text.FirstLetters | screens/patient/AppointmentHistoryScreen.tsx:137-138 | At most two characters, none lower-case. When the text does not start with a space, the first is its first character upper-cased |
| Text.FirstLettersOneWord | screens/patient/PatientProfileScreen.tsx:87-92 | A single space-free word gives exactly its first letter, upper-cased |
| Text.FirstLettersTwoWords | screens/patient/PatientProfileScreen.tsx:87-92 | Two space-free words joined by one space, then nothing or more space-separated text, give exactly the two words' first letters, upper-cased |
| Text.SplitTwoWords | screens/patient/AppointmentHistoryScreen.tsx:137 | Splitting two space-free words joined by one space, followed by nothing or a space, yields those two words first |
| AppointmentHistory.Initials | screens/patient/AppointmentHistoryScreen.tsx:135-139 | '?' for a missing or empty name; otherwise at most two upper-case characters, starting with the name's first |
| AppointmentHistory.InitialsTwoWords | screens/patient/AppointmentHistoryScreen.tsx:135-139 | A name that starts with two space-free words joined by one space gives those words' first letters, upper-cased |
| AppointmentHistory.InitialsLeadingSpace | screens/patient/AppointmentHistoryScreen.tsx:135-139 | The name is not trimmed: a leading space makes an empty first word, so only the next word's letter is shown |
| AppointmentHistory.CanModify | screens/patient/AppointmentHistoryScreen.tsx:192 | A record whose actions are hidden (status 'canceled') always shows the red badge |
| AppointmentHistory.AppointmentHistoryScreen.constructor | screens/patient/AppointmentHistoryScreen.tsx:43-46 | The list is empty and the filter is 'All' |
| AppointmentHistory.AppointmentHistoryScreen.LoadAppointments | screens/patient/AppointmentHistoryScreen.tsx:50-79 | With no current user the list is unchanged; otherwise it is that user's records with defaults |
| AppointmentHistory.AppointmentHistoryScreen.SetStatusFilter | screens/patient/AppointmentHistoryScreen.tsx:238-246 | One of the four filter buttons sets the filter and nothing else |
| AppointmentHistory.AppointmentHistoryScreen.DeleteAppointment | screens/patient/AppointmentHistoryScreen.tsx:81-103 | The list becomes `CancelIn(list, id)` and is written as the whole `appointments` collection |
| Reschedule.IsDateValid | screens/patient/RescheduleAppointmentScreen.tsx:65-73 | Comparing `YYYY-MM-DD` strings, today is valid and any other date is valid exactly when it comes after today |
| Reschedule.Rescheduled | screens/patient/RescheduleAppointmentScreen.tsx:116-120 | Only records with the old id get the new date and time; their other fields, the other records and the length are unchanged |
| Reschedule.RescheduledTwice | screens/patient/RescheduleAppointmentScreen.tsx:116-120 | Applying the same reschedule twice is applying it once |
| Reschedule.RescheduledLastWins | screens/patient/RescheduleAppointmentScreen.tsx:116-120 | Of two reschedules of one record, the later one decides |
| Reschedule.Decision | screens/patient/RescheduleAppointmentScreen.tsx:100-110 | An empty date or time is refused first, then a date before today; otherwise the change is saved |
| Reschedule.CanPickDate | screens/patient/RescheduleAppointmentScreen.tsx:157-164 | A day marked `true` can never be picked. Any other day, including one stored as `false`, can be picked exactly when it is valid |
| Reschedule.SaveIgnoresUnavailability | screens/patient/RescheduleAppointmentScreen.tsx:100-122 | For every doctor, day, time and today: a selected day the doctor marks `true`, which the calendar refuses, is still saved when it is not in the past |
| Reschedule.FindDoctor | screens/patient/RescheduleAppointmentScreen.tsx:54 | A doctor is found exactly when some doctor's id equals the record's doctorId, and it is the first such doctor in the list |
| Reschedule.NoDoctorWithoutDoctorId | screens/patient/RescheduleAppointmentScreen.tsx:54 | A record without a doctorId (every booked record) finds no doctor |
| Reschedule.MarkedDates | screens/patient/RescheduleAppointmentScreen.tsx:76-98 | Every unavailable date is marked disabled. The selected date is marked selected only when it is not already marked. Nothing else is marked |
| Reschedule.RescheduleScreen.constructor | screens/patient/RescheduleAppointmentScreen.tsx:44-46 | No doctor yet; date and time start as the old appointment's |
| Reschedule.RescheduleScreen.FetchDoctorInfo | screens/patient/RescheduleAppointmentScreen.tsx:50-59 | The doctor becomes the stored doctor matching the record's doctorId, if there is one; otherwise it stays |
| Reschedule.RescheduleScreen.PickDate | screens/patient/RescheduleAppointmentScreen.tsx:157-165 | A day that is not unavailable and not past becomes the date and clears the time; any other day changes nothing |
| Reschedule.RescheduleScreen.PickTime | screens/patient/RescheduleAppointmentScreen.tsx:182-205 | One of the doctor's own slots becomes the selected time |
| Reschedule.RescheduleScreen.CalendarMarks | screens/patient/RescheduleAppointmentScreen.tsx:76-98 | Every unavailable date is disabled, the selected date is selected unless disabled, and nothing else is marked |
| Reschedule.RescheduleScreen.HandleReschedule | screens/patient/RescheduleAppointmentScreen.tsx:100-133 | A refused decision writes nothing; a saved one writes the rescheduled collection to `appointments` |
| RescheduleHome.Decision | screens/patient/RescheduleAppointmentScreenHome.tsx:36-40 | Only an empty date or time is refused; a past date is never refused |
| RescheduleHome.HomeSkipsPastCheck | screens/patient/RescheduleAppointmentScreenHome.tsx:36-52 | A past date refused by the other reschedule screen is saved here; otherwise both screens decide alike |
| RescheduleHome.RescheduleHomeScreen.constructor | screens/patient/RescheduleAppointmentScreenHome.tsx:33-34 | Date and time start as the old appointment's |
| RescheduleHome.RescheduleHomeScreen.PickDate | screens/patient/RescheduleAppointmentScreenHome.tsx:96-100 | A day no earlier than today becomes the date, and the time is cleared |
| RescheduleHome.RescheduleHomeScreen.PickTime | screens/patient/RescheduleAppointmentScreenHome.tsx:125-133 | One of the five fixed times becomes the selected time |
| RescheduleHome.RescheduleHomeScreen.HandleReschedule | screens/patient/RescheduleAppointmentScreenHome.tsx:36-66 | An empty date or time writes nothing; otherwise the rescheduled collection is written to `appointments` |
| AdAppointments.Normalized | screens/admin/AdAppointmentsScreen.tsx:26-37 | Each missing or empty field gets its default. The record loses userId, doctorId and doctorName, which the admin's list does not copy |
| AdAppointments.NormalizedKeepsPresentFields | screens/admin/AdAppointmentsScreen.tsx:27-36 | Every field that is present and non-empty keeps its value |
| AdAppointments.NormalizedIdempotent | screens/admin/AdAppointmentsScreen.tsx:26-37 | Normalising a normalised record changes nothing |
| AdAppointments.NormalizeAll | screens/admin/AdAppointmentsScreen.tsx:26 | Each stored record maps to one normalised record, in the same position |
| AdAppointments.AdminCancel | screens/admin/AdAppointmentsScreen.tsx:70 | Every record with the id is removed and every other one stays |
| AdAppointments.AdminCancelKeepsOrder | screens/admin/AdAppointmentsScreen.tsx:70 | Removal works piecewise, so the remaining records keep their order |
| AdAppointments.AdminCancelAbsent | screens/admin/AdAppointmentsScreen.tsx:70 | Cancelling an id no record has changes nothing |
| AdAppointments.AdminCancelDeletes | screens/admin/AdAppointmentsScreen.tsx:70 | The cancelled record is gone and the list is shorter: a delete, not a status change |
| AdAppointments.AdminCancelHidesPatientRecords | screens/admin/AdAppointmentsScreen.tsx:70-71 | After the admin's write, no user with an id sees any appointment in the history |
| AdAppointments.StatusColor | screens/admin/AdAppointmentsScreen.tsx:84-95 | Green for 'confirmed', orange for 'pending', red for 'cancelled', blue otherwise, ignoring case |
| AdAppointments.StatusColorIgnoresCase | screens/admin/AdAppointmentsScreen.tsx:85 | 'Pending' and 'PENDING' get the pending colour |
| AdAppointments.CanceledColoursDiffer | screens/admin/AdAppointmentsScreen.tsx:90 | 'canceled' is blue on the admin screen and red on the patient screen |
| AdAppointments.AdAppointmentsScreen.constructor | screens/admin/AdAppointmentsScreen.tsx:17 | The list starts empty |
| AdAppointments.AdAppointmentsScreen.FetchAppointments | screens/admin/AdAppointmentsScreen.tsx:20-46 | With nothing stored the list is unchanged; otherwise it is the normalised stored list |
| AdAppointments.AdAppointmentsScreen.CancelAppointment | screens/admin/AdAppointmentsScreen.tsx:57-82 | The list becomes `AdminCancel(list, id)` and is written as the whole `appointments` collection |
| Register.ValidUsername | screens/auth/RegisterScreen.tsx:69-71 | A valid username holds no white space, and it never passes the e-mail check |
| Register.ValidEmail | screens/auth/RegisterScreen.tsx:73-74 | A valid e-mail has at least five characters, an '@' and a '.' |
| Register.ValidContactNumber | screens/auth/RegisterScreen.tsx:94-96 | A valid number is eleven characters, all digits |
| Register.ValidBirthday | screens/auth/RegisterScreen.tsx:98-100 | A valid birthday is made of digits and dashes only |
| Register.BirthdayParts | screens/auth/RegisterScreen.tsx:98-100 | A valid birthday splits on '-' into exactly three parts of four, two and two characters |
| Register.BirthdayShapeOnly | screens/auth/RegisterScreen.tsx:98-100 | The birthday check accepts '2023-13-45' and rejects '2023-1-5': shape only |
| Register.ValidEmailMatchesPattern | screens/auth/RegisterScreen.tsx:73-74 | The e-mail check holds exactly when the string is non-empty text, '@', text, '.', text, with no white space or further '@' |
| Register.ValidEmailFromParts | screens/auth/RegisterScreen.tsx:73-74 | Any local part, host and suffix made of allowed characters form a valid address |
| Register.PasswordStrength | screens/auth/RegisterScreen.tsx:76-92 | Under 8 characters is weak. Lower, upper and digit with no symbol or '_' is medium; with one it is strong, unless there is a line break. Anything else is weak |
| Register.LookaheadWithoutBreaks | screens/auth/RegisterScreen.tsx:81 | Without line breaks a `(?=.*x)` lookahead holds exactly when some character is in the class |
| Register.LookaheadFinds | screens/auth/RegisterScreen.tsx:81 | A lookahead that holds has found a character of its class |
| Register.PasswordStrengthMatchesPatterns | screens/auth/RegisterScreen.tsx:76-92 | The hand-coded strength equals the strength the three patterns define |
| Register.StrengthLabel | screens/auth/RegisterScreen.tsx:78-90 | Each strength has its label, and 'Weak' only for weak |
| Register.ShortPasswordIsWeak | screens/auth/RegisterScreen.tsx:77-79 | 'Ab1!' is weak for its length |
| Register.AlnumPasswordIsMedium | screens/auth/RegisterScreen.tsx:80-85 | 'Abcdefg1' is medium |
| Register.UnderscorePasswordIsStrong | screens/auth/RegisterScreen.tsx:86-88 | 'Abcdef1_' is strong: '_' counts as a symbol |
| Register.InvalidMessage | screens/auth/RegisterScreen.tsx:111-140 | Every field's failure message is non-empty. Only name and address share the 'required' message |
| Register.FieldError | screens/auth/RegisterScreen.tsx:111-140 | An empty field is required. Otherwise the field has no error exactly when its check passes, and the field's own message when not |
| Register.FormValid | screens/auth/RegisterScreen.tsx:156-161 | A valid form has every field present, and no field's check reports it as required |
| Register.FormValidMeansChecksPass | screens/auth/RegisterScreen.tsx:156-161 | A valid form with current errors has every field filled and passing its check, and the two passwords equal |
| Register.StaleErrorsKeepFormValid | screens/auth/RegisterScreen.tsx:156-161 | Editing the password after blur leaves the form valid although the confirmation no longer matches |
| Register.NewUser | screens/auth/RegisterScreen.tsx:187-197 | The record holds the form values with the e-mail lower-cased, the id and the registration date, and no role |
| Register.UsernameInUse | screens/auth/RegisterScreen.tsx:174 | A username is taken exactly when some position of the list holds it |
| Register.EmailInUse | screens/auth/RegisterScreen.tsx:175 | An e-mail is taken exactly when some position of the list holds it |
| Register.Register | screens/auth/RegisterScreen.tsx:174-199 | A taken username is refused first, then a taken e-mail; otherwise the user is appended last, the others unchanged |
| Register.RegisterKeepsUnique | screens/auth/RegisterScreen.tsx:174-199 | Registration keeps usernames and e-mails unique |
| Register.RegisterKeepsLowerCase | screens/auth/RegisterScreen.tsx:191 | Registration keeps every stored e-mail lower-case |
| Register.RegisterScreen.constructor | screens/auth/RegisterScreen.tsx:33-67 | Every field is empty, nothing is touched, there are no errors and no strength |
| Register.RegisterScreen.IsFormValid | screens/auth/RegisterScreen.tsx:156-161 | The button is enabled only once every field has been left at least once and no field's check reports it as required |
| Register.RegisterScreen.ChangeText | screens/auth/RegisterScreen.tsx:247 | Typing changes only that field's value; errors are not revalidated |
| Register.RegisterScreen.Blur | screens/auth/RegisterScreen.tsx:142-154 | The field becomes touched and its error is recomputed; the strength label follows a non-empty password |
| Register.RegisterScreen.HandleRegister | screens/auth/RegisterScreen.tsx:164-215 | An invalid form or a refused registration writes nothing. Otherwise `registeredUsers` gets the new list and `currentUser` the new user |
| Login.Validate | screens/auth/LoginScreen.tsx:35-53 | An empty e-mail is required and a malformed one invalid; the password is required exactly when empty |
| Login.HandleLogin | screens/auth/LoginScreen.tsx:55-82 | Errors stop first, then the admin pair goes to AdminHome. Otherwise a patient gets in exactly when both equal the stored `userEmail` and `userPassword` |
| Login.AdminEmailValid | screens/auth/LoginScreen.tsx:65 | The admin address passes the e-mail check |
| Login.AdminAlwaysAdmitted | screens/auth/LoginScreen.tsx:65-68 | The admin pair reaches AdminHome whatever is stored |
| Login.NoStoredCredentials | screens/auth/LoginScreen.tsx:71-78 | With no stored `userEmail` no patient login succeeds |
| Login.RegistrationDoesNotChangeLogin | screens/auth/LoginScreen.tsx:71-78 | The store writes of a registration do not change any login outcome |
| AdNotifications.MarkAsRead | screens/admin/AdNotificationScreen.tsx:35-37 | Records with the id get `read = true`; the length and all other records are unchanged |
| AdNotifications.MarkAsReadIdempotent | screens/admin/AdNotificationScreen.tsx:35-37 | Marking twice is marking once |
| AdNotifications.MarkAsReadCommutes | screens/admin/AdNotificationScreen.tsx:35-37 | Marking two ids gives the same list in either order |
| AdNotifications.Without | screens/admin/AdNotificationScreen.tsx:43 | Every record with the id goes and every other one stays |
| AdNotifications.WithoutKeepsOrder | screens/admin/AdNotificationScreen.tsx:43 | Deletion works piecewise, so the rest keep their order |
| AdNotifications.WithoutAbsent | screens/admin/AdNotificationScreen.tsx:43 | Deleting an absent id changes nothing |
| AdNotifications.WithoutTwice | screens/admin/AdNotificationScreen.tsx:43 | Deleting twice is deleting once |
| AdNotifications.DisplayText | screens/admin/AdNotificationScreen.tsx:67 | The message if present, else the body, else 'No details available.' |
| AdNotifications.AdNotificationScreen.constructor | screens/admin/AdNotificationScreen.tsx:17 | The list starts empty |
| AdNotifications.AdNotificationScreen.LoadNotifications | screens/admin/AdNotificationScreen.tsx:19-32 | The stored admin list is loaded if there is one; otherwise the list stays |
| AdNotifications.AdNotificationScreen.MarkRead | screens/admin/AdNotificationScreen.tsx:34-40 | The list becomes `MarkAsRead(list, id)` and is written to `adminNotifications` |
| AdNotifications.AdNotificationScreen.DeleteNotification | screens/admin/AdNotificationScreen.tsx:42-46 | The list becomes `Without(list, id)` and is written to `adminNotifications` |
| KeyValueStore.NotificationsKey | screens/patient/NotificationsScreen.tsx:28 | The key is 'notifications_' followed by the e-mail |
| KeyValueStore.NotificationsKeySeparate | screens/patient/NotificationsScreen.tsx:53 | Different e-mails give different keys, and no e-mail's key equals any of the eight fixed keys, `userRole` included |
| PatientNotifications.PatientNotificationsScreen.constructor | screens/patient/NotificationsScreen.tsx:16-17 | The list and the e-mail start empty |
| PatientNotifications.PatientNotificationsScreen.LoadUserAndNotifications | screens/patient/NotificationsScreen.tsx:21-38 | With no current user nothing changes. Otherwise the e-mail is kept and the list is what that user's key holds, or empty |
| PatientNotifications.PatientNotificationsScreen.ResolveNotification | screens/patient/NotificationsScreen.tsx:40-61 | The list becomes `Without(list, id)` and is written under the user's own key only |
| PatientNotifications.ResolveTouchesOnlyOwnKey | screens/patient/NotificationsScreen.tsx:53 | Resolving leaves other patients' lists and every one of the eight fixed keys unchanged |
| NotificationBadge.UnreadCount | components/NotificationIconWithBadge.tsx:20 | The count is at most the length, 0 exactly when nothing is unread, and the length exactly when all are unread |
| NotificationBadge.UnreadCountIsFilterLength | components/NotificationIconWithBadge.tsx:20 | The count is the length of the list filtered by `!n.read` |
| NotificationBadge.UnreadCountConcat | components/NotificationIconWithBadge.tsx:20 | Counting works piecewise |
| NotificationBadge.UnreadCountMonotone | components/NotificationIconWithBadge.tsx:20 | Fewer unread entries, position by position, give a lower count |
| NotificationBadge.MarkAsReadLowersCount | components/NotificationIconWithBadge.tsx:19-21 | Marking read never raises the count, and lowers it when the id was unread |
| NotificationBadge.FetchUnreadCount | components/NotificationIconWithBadge.tsx:15-28 | The stored list's unread count, 0 when nothing is stored, the previous count after a read error |
| NotificationBadge.ShowBadgeIffUnread | components/NotificationIconWithBadge.tsx:39 | The badge is shown exactly when some stored notification is unread |
| AdPatients.WithoutPatient | screens/admin/AdPatientsScreen.tsx:76 | Every user with the id goes and every other one stays |
| AdPatients.WithoutPatientKeepsOrder | screens/admin/AdPatientsScreen.tsx:76 | Deletion works piecewise, so the rest keep their order |
| AdPatients.WithoutPatientAbsent | screens/admin/AdPatientsScreen.tsx:76 | Deleting an absent id changes nothing |
| AdPatients.AdPatientsScreen.constructor | screens/admin/AdPatientsScreen.tsx:28 | The list starts empty |
| AdPatients.AdPatientsScreen.FetchPatients | screens/admin/AdPatientsScreen.tsx:32-52 | The stored users, or an empty list when nothing is stored |
| AdPatients.AdPatientsScreen.DeletePatient | screens/admin/AdPatientsScreen.tsx:63-87 | Only `registeredUsers` is written; the appointments and the current user are untouched |
| Dashboard.IsPatient | screens/admin/AdminDashboardScreen.tsx:34 | A user counts as a patient exactly when the role is absent, empty or 'patient' |
| Dashboard.Patients | screens/admin/AdminDashboardScreen.tsx:34 | Exactly the users whose role is 'patient' or missing or empty |
| Dashboard.FetchStats | screens/admin/AdminDashboardScreen.tsx:26-40 | Today's count is every stored appointment and the doctors are always 2. The patient figure is the number of `Patients` among the stored users, so at most the user count. A missing collection gives 0 |
| Dashboard.PatientsConcat | screens/admin/AdminDashboardScreen.tsx:34 | Counting patients works piecewise |
| Dashboard.RegistrationAddsPatient | screens/admin/AdminDashboardScreen.tsx:34-39 | A registration raises the patient figure by exactly one |
| Dashboard.BookingAddsAppointment | screens/admin/AdminDashboardScreen.tsx:37 | A booking raises "today's appointments" by one whatever its date |
| Dashboard.AdminRoleNotCounted | screens/admin/AdminDashboardScreen.tsx:34 | A user with role 'admin' is not counted |
| Profile.LoadedUser | screens/patient/PatientProfileScreen.tsx:39-42 | A stored current user replaces the whole record; otherwise the record stays |
| Profile.HandleChange | screens/patient/PatientProfileScreen.tsx:61-62 | The named field takes the value; every other field is unchanged |
| Profile.HandleChangeLastWins | screens/patient/PatientProfileScreen.tsx:62 | Of two edits of one field the later one decides |
| Profile.HandleChangeSameValue | screens/patient/PatientProfileScreen.tsx:62 | Writing a field's own value back changes nothing |
| Profile.HandleChangeCommutes | screens/patient/PatientProfileScreen.tsx:62 | Edits of two different fields give the same record in either order |
| Profile.Initials | screens/patient/PatientProfileScreen.tsx:85-93 | 'U' for a blank name. Otherwise one or two characters, none lower-case, starting with the trimmed name's first character upper-cased |
| Profile.InitialsOneWord | screens/patient/PatientProfileScreen.tsx:85-93 | A one-word name without surrounding white space gives its first letter, upper-cased |
| Profile.InitialsTwoWords | screens/patient/PatientProfileScreen.tsx:85-93 | A name of two or more words separated by single spaces gives the first letters of the first two words, upper-cased |
| Profile.EmptyProfileInitials | screens/patient/PatientProfileScreen.tsx:24-32 | The starting record, whose name is empty, shows 'U' |
| Profile.Logout | screens/patient/PatientProfileScreen.tsx:76 | `userRole` and `currentUser` are removed and every other key is kept |
| Profile.LoadAfterLogout | screens/patient/PatientProfileScreen.tsx:36-48 | After logout a reload keeps the record the screen had |

## Left out

- Rendering, styles, navigation, pull-to-refresh and loading flags are not modelled. An `Alert` confirmation is taken as answered "Yes".
- Storage failures and JSON parse errors are not modelled. A key holding a value of another shape reads as absent. The badge's read error is a parameter of `NotificationBadge.FetchUnreadCount`.
- The clock is not modelled: `Date.now()` ids, ISO timestamps and today's date are parameters.
- Reschedule.IsDateValid: compares the YYYY-MM-DD strings, not `new Date(...)` at local midnight. An unparsable date (an invalid `Date`, which is never `>=` today) and time-zone effects are not modelled.
- BookAppointment.BookAppointmentScreen.PickDate and RescheduleHome.RescheduleHomeScreen.PickDate: the calendar's `minDate` is a precondition. The handler itself would accept any day.
- Calendar marking on the booking and home reschedule screens (one selected date) is display only and not modelled.
- `toUpperCase` and `toLowerCase` are modelled on the ASCII letters only. `\s` is the full JavaScript white-space set. Lengths count characters, not UTF-16 code units.
- `toLocaleString` of notification timestamps and the strength colour of the registration screen are display only and not modelled.
- The callbacks of the update registry are opaque identities. What a callback does when invoked, and callbacks that subscribe or unsubscribe while being notified, are not modelled.
- The profile screen's debounced save (a one-second timer writing `currentUser`) is not modelled, because it is timer-driven.
- Register.RegisterScreen.ChangeText: `onChangeText` of each field is one method with the field as a parameter. The show-password toggles are not modelled.
- The status labels' capitalisation is display only.
- Approving or declining appointments, duplicate-booking checks, per-doctor bookings and password hashing do not exist in the app and are not modelled.
- The authentication context and the admin "More" screen's logout are not part of this model.
