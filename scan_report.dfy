/**
 * The report structure built by `PentestFramework.process_scan_results` and
 * read by `ReportGenerator.generate_html_report` (app.py): a dictionary
 * `{'hosts': [{'ip': ..., 'ports': [{'port': ..., 'service': ..., 'state': ...}]}]}`.
 */
module ScanReport {

  /** One `{'port', 'service', 'state'}` entry; port numbers are non-negative. */
  datatype PortEntry = PortEntry(port: nat, service: string, state: string)

  /** One `{'ip', 'ports'}` entry. */
  datatype HostEntry = HostEntry(ip: string, ports: seq<PortEntry>)

  /** The `report` dictionary; `hosts` is its only key. */
  datatype Report = Report(hosts: seq<HostEntry>)
}
