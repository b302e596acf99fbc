/**
 * The permission identifiers (`android.Manifest.permission.*` strings) the library names.
 * `Other` stands for any identifier string different from all of the named ones.
 */
module Manifest {

  datatype Permission =
    | ManageExternalStorage
    | WriteExternalStorage
    | ReadExternalStorage
    | ReadMediaImages
    | ReadMediaVideo
    | ReadMediaAudio
    | WriteContacts
    | ReadContacts
    | WriteCalendar
    | ReadCalendar
    | WriteCallLog
    | ReadCallLog
    | ReadSms
    | AccessMediaLocation
    | PostNotifications
    | RequestIgnoreBatteryOptimizations
    | ScheduleExactAlarm
    | Other(name: string)
}
