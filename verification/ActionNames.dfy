/** The three actions that can be proposed, checked, run and recorded. */
module ActionNames {

  const HTTP_HEADERS := "inspect_http_headers"
  const TLS_CERTIFICATE := "inspect_tls_certificate"
  const TCP_CONNECTION := "check_tcp_connection"

  predicate IsRegistered(name: string) {
    name == HTTP_HEADERS || name == TLS_CERTIFICATE || name == TCP_CONNECTION
  }
}
