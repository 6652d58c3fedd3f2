/** The engine's read-only reference data. */
module Tables {

  /** `COMMON_PASSWORDS`: the denylist, all lower case. */
  const CommonPasswords: set<string> := {
    "password", "123456", "123456789", "qwerty", "letmein", "admin",
    "password1", "welcome", "iloveyou", "monkey", "dragon", "football"
  }

  /** `KEYBOARD_PATTERNS`: runs of adjacent keys. */
  const KeyboardPatterns: seq<string> := [
    "qwerty", "asdf", "zxcv", "poiuy", "lkjh", "mnbv", "12345", "67890"
  ]

  /** `SEQUENCES`: the canonical ascending sequences. */
  const Sequences: seq<string> := [
    "abcdefghijklmnopqrstuvwxyz",
    "ABCDEFGHIJKLMNOPQRSTUVWXYZ",
    "0123456789"
  ]
}
