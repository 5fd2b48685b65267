/** The fixed texts of every alert the two scripts send. */
module Messages {
  import opened Text

  const MissingSubject := "Missing device"
  const MissingOkSubject := "Missing device OK"
  const ErrorsSubject := "BTRFS errors"
  const ErrorsOkSubject := "BTRFS errors back to normal"
  const KernelErrorsSubject := "BTRFS kernel errors detected"

  /** The two guidance lines that open a journal report of btrfs-monitor.py. */
  const JournalHeader := "\n\n------- Journal errors -------\n\n"
  const JournalHint := "Check with sudo journalctl -t kernel | grep -i btrfs\n\n"

  function MissingDetected(uuid: string): string
  {
    "Missing device detected for " + uuid
  }

  function MissingBackToNormal(uuid: string): string
  {
    "Missing device back to normal on " + uuid
  }

  function ErrorCountIncreased(mountpoint: string, count: int): string
  {
    "BTRFS error count increased on " + mountpoint + " to " + IntToString(count)
    + "\nRun sudo btrfs device stats " + mountpoint + " to check."
  }

  function ErrorCountNormal(mountpoint: string): string
  {
    "Error count back to normal on " + mountpoint
    + "\nRun sudo btrfs device stats " + mountpoint + " to check."
  }

  /** The subject btrfs-watchd.py builds itself, host name included. */
  function ErrorsDetectedOn(hostname: string): string
  {
    "BTRFS Errors detected on " + hostname
  }

  function FailingDeviceLine(device: string, mountpoint: string, count: int): string
  {
    "Device with FAILURES: " + device + " at mountpoint " + mountpoint
    + " with " + IntToString(count) + " errors"
  }
}
