/** Error numbers as the Linux kernel defines them; functions return them negated. */
module Errno {
  const ENOENT := 2
  const EINTR := 4
  const EIO := 5
  const EBADF := 9
  const EAGAIN := 11
  const ENOMEM := 12
  const EINVAL := 22
  const ENOTSUP := 95
  const ETIMEDOUT := 110
  const EALREADY := 114

  /** A failing system call: `errno` is positive. */
  type Errno = e: int | 0 < e < 4096 witness EIO
}
