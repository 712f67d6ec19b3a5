/**
 * The application constants of config/config.php that the modelled code reads.
 * Times are in seconds, lengths in bytes (one `char` stands for one byte).
 */
module Config {

  /** The application's URL prefix; redirects go to BASE_URL + page. */
  const BASE_URL: string := "/"

  const SESSION_LIFETIME: int := 7200
  const CSRF_TOKEN_NAME: string := "csrf_token"

  const PASSWORD_MIN_LENGTH: int := 8
  const PASSWORD_MAX_LENGTH: int := 128
  const LOGIN_RATE_LIMIT: int := 5
  const LOGIN_RATE_WINDOW: int := 900
  const PASSWORD_RESET_EXPIRY: int := 3600

  /** APP_ENV is 'development', so LOG_LEVEL is 'DEBUG'. */
  const LOG_LEVEL: string := "DEBUG"

  const USERNAME_MIN_LENGTH: int := 3
  const USERNAME_MAX_LENGTH: int := 50
  const NOTES_MAX_LENGTH: int := 10000
  const DURATION_MIN: int := 1
  const DURATION_MAX: int := 1440
  const INTENSITY_MIN: int := 1
  const INTENSITY_MAX: int := 10
}
