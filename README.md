# Scan orchestration core of the automated penetration-testing framework

This project models the sequential core of `app.py`, the framework's single
program, and proves properties of it in Dafny. Three pieces are covered:

- **Work partitioning** (`AdvancedNetworkScanner.threaded_scan`). The chunk
  size is `len(hosts) // max_threads or 1`. The host list is then cut into
  fixed-stride slices, one worker thread per slice (module `NetworkScanner`,
  file `network_scanner.dfy`).
- **Result aggregation** (`PentestFramework.process_scan_results`). The scan
  engine's per-host → per-protocol → per-port records are flattened into the
  report structure `{'hosts': [{'ip', 'ports': [{'port', 'service',
  'state'}]}]}`. A missing service name becomes `"unknown"`. The same module
  holds the scan-option lookup of `network_scan_workflow` (module
  `PentestFramework`, file `pentest_framework.dfy`). The report structure
  itself is in `scan_report.dfy`.
- **Report formatting** (`ReportGenerator.generate_html_report`). This covers
  the `reports/<type>_report_<timestamp>.html` file name, the
  `%Y%m%d_%H%M%S` timestamp (`timestamp.dfy`), and the HTML text that the
  successive writes produce (`report_generator.dfy`). `report_outline.dfy`
  holds a decoder for that text. The round-trip lemmas prove that the file
  reads back as one section per host and one item per port, in order.

The scan engine's results, the host list and the clock reading are inputs.
The loops of the source are methods with loop invariants. Each method is
proved equal to a recursive specification function, and lemmas state what
the source promises about those functions.

Facts about the code that a reader may not expect:

- The number of worker threads can reach `2 * max_threads - 1`. It ranges
  from `max_threads` to `2 * max_threads - 1` whenever there are at least
  `max_threads` hosts. For example, 7 hosts on 4 threads give chunk size 1 and
  7 threads (`NetworkScanner.ThreadCount`, `NetworkScanner.SevenHostsFourThreads`).
- Progress advances only after a successful per-host scan (app.py:112-114).
  Progress is not modelled.
- Two reports of the same type written within the same second get the same
  file name. The file is opened with mode `'w'`, so the later report replaces
  the earlier one (`ReportGenerator.SameSecondSameFile`).

## Model

| member | source | states |
|---|---|---|
| `NetworkScanner.ChunkSize` | app.py:86 | The chunk size is at least 1. It is the floor of `|hosts| / max_threads` when there are at least `max_threads` hosts (`size * m <= n < (size + 1) * m`), and 1 otherwise |
| `NetworkScanner.Partition` | app.py:86-93 | The partition loop returns the chunk size of line 86 and exactly the slices `hosts[i:i+size]` for `i` in `range(0, len(hosts), size)`, in order |
| `NetworkScanner.PartitionCoversHosts` | app.py:92-93 | Concatenating the chunks in order gives back the host list exactly: no host is lost, duplicated or reordered |
| `NetworkScanner.PartitionShape` | app.py:92-93 | Every chunk is non-empty and at most `size` long. All chunks but the last are exactly `size` long. There are no chunks iff there are no hosts. Otherwise the chunk count `k` is the ceiling of `n / size` (`(k-1)*size < n <= k*size`) |
| `NetworkScanner.ThreadCount` | app.py:86-99 | Threads started: `n` when `n < max_threads`. Otherwise between `max_threads` and `2*max_threads - 1`: exactly `max_threads` when it divides `n`, and more than `max_threads` when it does not |
| `NetworkScanner.NineHostsFourThreads` | app.py:86-93 | 9 hosts on 4 threads: chunk size 2 and five chunks `hosts[0:2]`, `[2:4]`, `[4:6]`, `[6:8]`, `[8:9]` |
| `NetworkScanner.SevenHostsFourThreads` | app.py:86-99 | 7 hosts on 4 threads: chunk size 1, so seven threads |
| `PentestFramework.ScanArguments` | app.py:239-244 | Menu choice "1" (SYN) gives `-sS`, "2" (UDP) `-sU`, "3" (full) `-A -T4` and "4" (vulnerability) `--script vuln`. Any other answer gets `-sS` |
| `PentestFramework.ScanArgumentsChoice` | app.py:239-244 | `-sS` is chosen iff the answer is "1" or not a menu identifier. Distinct menu identifiers give distinct options |
| `PentestFramework.ProcessScanResults` | app.py:252-271 | The nested aggregation loops succeed iff every result host has an engine record, and then return `Report(HostEntries(engine, results))`. Otherwise they fail with the first host that has no record (Python's `KeyError`) |
| `PentestFramework.HostEntriesAt` | app.py:253-271 | The report has exactly one host entry per result host, in result order. Entry `k` has `ip == results[k]` and that host's aggregated ports |
| `PentestFramework.DistinctHostsDistinctEntries` | app.py:254-271 | Distinct result hosts give distinct `ip` fields, so no host is reported twice |
| `PentestFramework.ProtocolEntriesAt` | app.py:259-266 | One port entry per port of a protocol, in port order. The port and state are copied. `service` is the record's `name`, or `"unknown"` when it has none |
| `PentestFramework.HostPortsAppend` | app.py:258-266 | Aggregating protocols `a` then `b` gives the entries of `a` followed by those of `b`. The port counts add up |
| `PentestFramework.HostPortsAt` | app.py:256-266 | A host's port list has one entry per port over all its protocols. The entry for port `j` of protocol `p` sits at position `PortCount(protocols[..p]) + j` (protocol-then-port order) |
| `PentestFramework.SingleHostExample` | app.py:252-271 | Engine record `10.0.0.1: tcp {22: open/ssh, 80: closed/http}` gives one host with two port entries, in engine order |
| `PentestFramework.NetworkReportReadsBack` | app.py:252-273 | The network report written for the aggregated results reads back as one section per result host, in order. Each section lists one item per recorded port, in protocol-then-port order |
| `Timestamp.Digits` | app.py:147 | Zero-padded decimal (`%04d`, `%02d`) has exactly the requested width and consists of digits |
| `Timestamp.DigitsValue` | app.py:147 | The zero-padded digits (`%04d`, `%02d`) spell the number in decimal, most significant digit first |
| `Timestamp.DigitsInjective` | app.py:147 | Zero-padded decimal is one-to-one on the numbers that fit in the width |
| `Timestamp.StampShape` | app.py:147 | A `%Y%m%d_%H%M%S` stamp is 15 characters: digits, with `_` at position 8 |
| `Timestamp.StampInjective` | app.py:147 | Two readings give the same stamp iff they fall in the same second |
| `ReportGenerator.FilenameInjective` | app.py:148 | For timestamps of one length, the file name `reports/<type>_report_<stamp>.html` determines both the type and the stamp, and conversely |
| `ReportGenerator.SameSecondSameFile` | app.py:147-152 | Two reports of the same type share a file name iff they are written within the same second |
| `ReportGenerator.CapitalizeProperties` | app.py:154 | `capitalize` keeps the length and adds or removes no `<`. Applying it twice is the same as once |
| `ReportGenerator.CapitalizeNetwork` | app.py:154 | The network report's heading word is `Network` |
| `ReportGenerator.NatToString` | app.py:162 | `str(port)` is a non-empty string of decimal digits with no leading zero unless the port is 0 |
| `ReportGenerator.NatToStringValue` | app.py:162 | `str(port)` reads back as the port number in decimal |
| `ReportGenerator.NatToStringInjective` | app.py:162 | Two ports are written the same iff they are the same port |
| `ReportGenerator.ItemTextPort` | app.py:162 | Equal list-item texts were written for the same port number |
| `ReportGenerator.WriteHostSection` | app.py:158-163 | The writes for one host produce `HostSection(host)`: the `<h2>Host: ip</h2>` heading, the list opening, one `<li>port (service) - state</li>` per port in order, and `</ul>` |
| `ReportGenerator.GenerateHtmlReport` | app.py:146-166 | Returns the file name of line 148 and the text of the successive writes. That text is `ReportHtml`: the heading, then (for type "network" only) one section per host, then `</body></html>` |
| `ReportOutline.ItemsRoundTrip` | app.py:161-163 | The list items of a host's ports read back as one `port (service) - state` text per port, in port order, up to the closing `</ul>` |
| `ReportOutline.SectionsRoundTrip` | app.py:157-165 | The host sections read back as one section per host, in report order, each with that host's `ip` and item texts |
| `ReportOutline.HeadingRoundTrip` | app.py:153-155 | The heading reads back as the capitalized report type and the timestamp |
| `ReportOutline.ReportRoundTrip` | app.py:153-165 | A report file starts with `<html><body>` and ends with `</body></html>`. It reads back as its capitalized type and its timestamp. For type "network" only, it has one section per host and one item per port, in order. Any other type has no host sections |

## Left out

- The nmap engine (`PortScanner`, `listscan`, `scan`, `all_hosts`, `nm[host]`, app.py:80-116 and app.py:255). The library is foreign code. The listed hosts, the recorded hosts and the per-host records are inputs.
- `all_protocols()` ordering: the order in which the engine lists a host's protocols belongs to the library. The model takes the protocols as an ordered input.
- Threads, `threading.Lock`, `start`/`join` and the `rich` progress bar (app.py:81, app.py:89-102, app.py:113-114). Only the list of chunks handed to the threads is modelled. Scan concurrency and progress counting are not.
- The engine error paths: `PortScannerError` → `[]` (app.py:105-107) and the per-host `except` with logging (app.py:115-116). An engine failure shows up in the model only as an empty or shorter result list.
- NetworkScanner.Partition: requires `maxThreads >= 1`. The only caller uses the default 4. With `max_threads == 0`, Python raises `ZeroDivisionError`. With a negative value, `range` starts no thread. Neither case is modelled.
- ProcessScanResults: every port record is assumed to carry a `state`. A record without one would raise `KeyError` in Python. Port numbers are non-negative integers.
- The report file system effects: `os.makedirs`, `open`, and the `except` → `None` path (app.py:151-152, app.py:167-169). The writer returns the file name and the text instead. The call at app.py:273 writes such a file for the aggregated report. Only the text it writes is modelled (`PentestFramework.NetworkReportReadsBack`).
- `datetime.now()` (app.py:147): the clock reading is a parameter.
- Timestamp.Valid: only years 1000-9999 are covered, because `%Y` padding of smaller years depends on the C library. Days are bounded by 31 regardless of the month.
- Capitalize: ASCII only. Python's `str.capitalize` also title-cases and lower-cases non-ASCII letters.
- ReportOutline.ReportRoundTrip: read-back is proved only for texts without `<`. The report escapes nothing, so a host, service, state or report type containing `<` can make the file ambiguous.
- `ConfigManager`, `Authenticator` (bcrypt, `input`, `getpass`), `VulnerabilityScanner` (nikto subprocess, nmap vuln scripts), `PentestUI`, the menu loop, `view_reports` (`os.listdir`, `os.system`), `self.reports.append` (app.py:249) and all logging. These are interactive I/O or foreign tools around the core.
