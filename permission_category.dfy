/** The semantic permission categories callers ask for (enums/PermissionCategory.kt). */
module PermissionCategories {

  datatype PermissionCategory =
    | Media            // photos, videos and music together
    | Photos
    | Videos
    | Music
    | ManageStorage    // all files
    | Contacts
    | Calendar
    | CallLogs
    | Sms
    | Schedule
    | MediaLocation
    | Notifications
    | IgnoreBatteryOptimization
}
