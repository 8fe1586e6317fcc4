# Host-name extraction of the socket web client

The web client takes a URL on its command line and connects to the host it
names on port 80. Before it opens a connection, two routines in
`Source/client.cpp` handle the URL. This project models both and proves their
contracts:

- `is_HTTP_URL` checks whether the URL starts with the four characters `http`.
- `getHostnameFromURL` turns down a non-HTTP URL with `NULL`. For an HTTP URL,
  it finds the first `/` and skips the character after it, which is normally
  the second `/` of `//`. It then copies everything up to the next `/` into a
  newly allocated `char` buffer. The buffer ends with a NUL terminator.

The slicing is positional. It does no authority parsing, so `user@` and
`:port` text stays in the host as written.

There are two modules:

- `CStrings` (`cstrings.dfy`) models C strings and the library calls the
  routines depend on.
  - A `char*` argument is modelled as the characters before its NUL
    terminator (`IsCString`).
  - `strchr` is the function `Strchr`.
  - Reading a NUL-terminated buffer back is `CStringAt`.
- `Client` (`client.dfy`) models the two routines.
  - `IsHttpUrl` reads the terminated buffer the way the C code does. Its
    short-circuit keeps every read in bounds, and Dafny checks that.
  - `GetHostnameFromUrl` is a method with both of the source's loops. It
    returns `array?<char>`, where `null` stands for `NULL`.
  - `HostOf` is the specification of the slice. It is written with the same
    two `strchr` calls. The lemmas tie it to a definition that does not use
    `Strchr` (`IsHostSplit`), and to URLs assembled from their parts.

The HTTP branch reads outside the string in three cases:

- there is no `/` at all;
- the first `/` is the last character;
- there is no `/` at or after the cell two past the first one. This case
  covers `http://example.com` with nothing after the host.

The method's precondition `SlashesPresent` excludes these cases. Its other
precondition is that the URL is a well-formed C string.

## Model

| member | source | states |
|---|---|---|
| `CStrings.Strchr` | Source/client.cpp:111-112 | `strchr` from a pointer into the string: it returns the index of the first occurrence at or after the start, or `None` (NULL) exactly when no occurrence lies before the terminator |
| `CStrings.StrchrFindsFirst` | Source/client.cpp:111-112 | converse of the above: any first occurrence at or after the start is the one `strchr` returns |
| `CStrings.CStringAt` | Source/client.cpp:120-125 | reading a buffer as a C string gives a NUL-free prefix of it, stopped by a NUL whenever it is shorter than the buffer |
| `CStrings.TerminatedReadsBack` | Source/client.cpp:122-125 | a NUL-free string followed by a single NUL reads back as that string |
| `Client.IsHttpUrl` | Source/client.cpp:137-143 | true exactly when the URL has at least four characters and they are `h`,`t`,`t`,`p` |
| `Client.HttpPrefixExamples` | Source/client.cpp:136-143 | `http://`, `https://`, `httpfoo` and `http` pass; `ftp://`, `htt`, the empty string and upper-case `HTTP://` fail |
| `Client.HostCharacterization` | Source/client.cpp:111-117 | if `f` is the first `/` and `t` is the first `/` at or after `f+2`, then the precondition holds and the host is `url[f+2..t]`; whenever the precondition holds, the two `strchr` results form such a split |
| `Client.HostHasNoSlash` | Source/client.cpp:112-117 | the extracted host contains no `/` and no NUL |
| `Client.HostOfComposed` | Source/client.cpp:105-117 | round trip: for any `x`, a URL built as scheme + `/` + `x` + host + `/` + path, where scheme and host have no `/`, gives back exactly that host (`user@` and `:port` included); `x` is skipped whatever it is |
| `Client.StanfordExample` | Source/client.cpp:105-106 | the documented URL `http://web.stanford.edu/dept/...` gives `web.stanford.edu` |
| `Client.EmptyHostAfterThirdSlash` | Source/client.cpp:112-116 | when the cell two past the first `/` is itself `/` (as in `http:///x`), the host is empty |
| `Client.TrailingSlashNeeded` | Source/client.cpp:111-116 | `http://example.com` passes the prefix test but does not meet the precondition of the HTTP branch; `http://example.com/` meets it and gives `example.com` |
| `Client.GetHostnameFromUrl` | Source/client.cpp:107-134 | returns `null` exactly when the URL is not HTTP; otherwise returns a fresh buffer of length `|host| + 1` whose first `|host|` cells are the host and whose last cell is NUL |
| `Client.HostBufferReadsBack` | Source/client.cpp:119-127 | a buffer laid out as `GetHostnameFromUrl` promises reads back as a C string equal to the host, and that string contains no `/` |

## Left out

- `main` (Source/client.cpp:15-103): left out because it is all operating-system and network I/O. That covers Winsock start-up, `getaddrinfo`, socket creation, `connect`, cleanup and console output.
- `getIPv4` (Source/client.cpp:147-155): left out because it is a thin wrapper around the foreign `getnameinfo` call.
- Source/client.h: left out because it holds only includes, link directives and declarations.
- The console message printed for a non-HTTP URL (Source/client.cpp:131): left out because it is output only. The model returns `null` on that path.
- `delete[]` of the host buffer: left out. The result is modelled as a freshly allocated array, and deallocation is not modelled.
- Undefined behaviour in the HTTP branch: the URL shapes that make the C code read outside the string are excluded by the precondition `SlashesPresent` and are not modelled as results.
- A URL with an embedded NUL: left out because a C string cannot hold one. The URL must satisfy `IsCString`.
- `int str_len` (Source/client.cpp:119): the conversion of the string length to `int` is not modelled. Host names longer than `INT_MAX` are out of scope, and lengths are unbounded naturals.
