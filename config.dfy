/** The process-wide constants of config.py, fixed as model parameters. */
module Config {
  /** TAX_RATE = 0.08, taken as the exact rational 8/100. */
  const TaxRate: real := 0.08
  /** SERVICE_INTERVAL_DAYS: days from a service to the next recommended one. */
  const ServiceIntervalDays: nat := 90
  /** REMINDER_DAYS: look-ahead window of the service reminders. */
  const ReminderDays: nat := 7
}
