/**
 * What the platform answers to the library's queries, as one snapshot value. Every
 * transition of the model reads a snapshot; between two transitions the user may have
 * changed it (in a dialog or on a settings screen).
 */
module Platform {
  import opened Manifest

  // PackageManager.PERMISSION_GRANTED / PERMISSION_DENIED
  const PERMISSION_GRANTED: int := 0
  const PERMISSION_DENIED: int := -1

  datatype Device = Device(
    sdk: int,                           // Build.VERSION.SDK_INT
    granted: set<Permission>,           // identifiers checkSelfPermission reports as granted
    externalStorageManager: bool,       // Environment.isExternalStorageManager()
    ignoringBatteryOptimizations: bool, // PowerManager.isIgnoringBatteryOptimizations(packageName)
    showRationale: set<Permission>)     // identifiers shouldShowRequestPermissionRationale holds for
}
