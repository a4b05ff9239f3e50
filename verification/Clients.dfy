/** clients.conf: its printer (templates/core/clients.conf.tmpl), the init container that prints
    it again and resolves its secrets (cmd/operator/render_clients.go), and a parser of it. */
module Clients {
  import opened Wrappers
  import opened Text
  import opened Specs
  import opened Sanitize
  import opened FileRefs
  import opened Unlang
  import opened Sites

  // ---------------------------------------------------------------- printer

  predicate ValidIPOrCIDR(s: string) {
    s != "" && forall c | c in s :: IsDigit(c) || 'a' <= c <= 'f' || 'A' <= c <= 'F' || c == '.' || c == ':' || c == '/'
  }

  predicate ValidClient(c: ClientSpec) {
    c.rawConfig == "" ==>
      && ValidIdentifier(c.name)
      && ValidIPOrCIDR(c.ip)
      && (c.nasType != "" ==> ValidIdentifier(c.nasType))
  }

  function IpDirective(ip: string): string {
    if ':' in ip then "ipv6addr" else "ipaddr"
  }

  // Paths and comment lines are in pieces because long literals are slow to verify (see Text).

  function SecretPath(ref: SecretRef): string {
    "/etc/freeradius" + ("/secrets/" + (ref.name + ("/" + ref.key)))
  }

  /** secretFilePath. */
  function SecretText(ref: SecretRef): string {
    RefText(SecretPath(ref))
  }

  function FieldText(key: string, value: string): string {
    FOUR + (key + (" = " + (value + "\n")))
  }

  function BlockText(name: string, directive: string, ip: string, secret: string, nasType: string): string {
    BlockHead(name, directive, ip) + (secret + BlockTail(nasType))
  }

  function BlockHead(name: string, directive: string, ip: string): string {
    "client " + (name + (" {\n" + (FieldText(directive, ip) + (FOUR + ("secret" + " = ")))))
  }

  function BlockTail(nasType: string): string {
    "\n" + (FieldText("nastype", nasType) + ("}\n" + "\n"))
  }

  function ClientText(c: ClientSpec, secret: string): string {
    if c.rawConfig != "" then c.rawConfig + "\n\n"
    else BlockText(c.name, IpDirective(c.ip), c.ip, secret, c.nasType)
  }

  function ClientsHeader(): string {
    "# clients.conf — " + ("generated by " + "freeradius-operator")
  }

  function Preamble(): string {
    ClientsHeader() + ("\n" + (WarningLine() + ("\n" + ("\n" +
      (BlockText("localhost", "ipaddr", "127.0.0.1", "testing123", "other") +
       BlockText("localhost_v6", "ipv6addr", "::1", "testing123", "other"))))))
  }

  /** What stands for the secret of a client: the reference, or once the files are given their content. */
  function SecretOf(files: Option<Files>, c: ClientSpec): string {
    if files.None? then SecretText(c.secretRef) else ValueOf(files.value, Ref(SecretPath(c.secretRef)))
  }

  function BlocksText(files: Option<Files>, cs: seq<ClientSpec>): string {
    if cs == [] then "" else ClientText(cs[0], SecretOf(files, cs[0])) + BlocksText(files, cs[1..])
  }

  function FileText(files: Option<Files>, cs: seq<ClientSpec>): string {
    Preamble() + (BlocksText(files, cs) + "\n")
  }

  /** RenderClients. */
  function ClientsText(cs: seq<ClientSpec>): string {
    FileText(None, cs)
  }

  // ---------------------------------------------------------------- the init container

  /** A RadiusClient object. */
  datatype RadiusClient = RadiusClient(
    name: string, clusterRef: string, ip: string, secretRef: SecretRef, nasType: string, rawConfig: string)

  /** The clients of a cluster as the init container sees them: their raw text is dropped. */
  function Projected(items: seq<RadiusClient>, clusterName: string): seq<ClientSpec> {
    if items == [] then []
    else (if items[0].clusterRef == clusterName
          then [ClientSpec(items[0].name, items[0].ip, items[0].secretRef, items[0].nasType, "")]
          else []) + Projected(items[1..], clusterName)
  }

  method SelectClients(items: seq<RadiusClient>, clusterName: string) returns (clients: seq<ClientSpec>)
    ensures clients == Projected(items, clusterName)
  {
    clients := [];
    for i := 0 to |items|
      invariant clients + Projected(items[i..], clusterName) == Projected(items, clusterName)
    {
      var c := items[i];
      assert items[i..][1..] == items[i + 1..];
      if c.clusterRef != clusterName {
        continue;
      }
      var spec := ClientSpec(c.name, c.ip, c.secretRef, c.nasType, "");
      assert (clients + [spec]) + Projected(items[i + 1..], clusterName) ==
             clients + Projected(items[i..], clusterName);
      clients := clients + [spec];
    }
  }

  method RenderClientsToFile(files: Files, items: seq<RadiusClient>, clusterName: string) returns (content: string)
    requires Terminates(files, ClientsText(Projected(items, clusterName)))
    ensures Ends(files, ClientsText(Projected(items, clusterName)), content)
  {
    var clients := SelectClients(items, clusterName);
    content := ResolveFileRefs(files, ClientsText(clients));
  }

  // ---------------------------------------------------------------- parser

  datatype Row = Row(name: string, directive: string, ip: string, secret: string, nasType: string)

  /** One `key = value` line. */
  function ParseField(s: string): (r: Option<(string, string, string)>)
    ensures r.Some? ==> |r.value.2| < |s|
  {
    var t := Skip(s);
    var key := TakeWhile(t, IsIdentifierChar);
    var rest := Strip(DropWhile(t, IsIdentifierChar), " = ");
    if key == "" || rest.None? then None
    else
      var value := TakeWhile(rest.value, NotNewline);
      var next := Strip(DropWhile(rest.value, NotNewline), "\n");
      if next.None? then None else Some((key, value, next.value))
  }

  function ParseBlock(s: string): (r: Option<(Row, string)>)
    ensures r.Some? ==> |r.value.1| < |s|
  {
    var keyword := Strip(s, "client ");
    if keyword.None? then None
    else
      var open := ParseOpening(keyword.value);
      if open.None? then None
      else
        var address := ParseField(open.value.1);
        if address.None? then None
        else
          var secret := ParseField(address.value.2);
          if secret.None? || secret.value.0 != "secret" then None
          else
            var nas := ParseField(secret.value.2);
            if nas.None? || nas.value.0 != "nastype" then None
            else
              var end := Strip(Skip(nas.value.2), "}\n");
              if end.None? then None
              else Some((Row(open.value.0, address.value.0, address.value.1, secret.value.1, nas.value.1), end.value))
  }

  function ParseClients(s: string): Option<seq<Row>>
    decreases |s|
  {
    var t := Skip(s);
    if t == "" then Some([])
    else
      var first := ParseBlock(t);
      if first.None? then None
      else
        var others := ParseClients(first.value.1);
        if others.None? then None else Some([first.value.0] + others.value)
  }
}
