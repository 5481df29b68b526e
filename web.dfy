/**
  The kotsadm web front end that `ensureWeb` installs: the deploy options
  it fills in from the operator (hostname, service type, node port), the
  three cluster objects it creates when absent (the start-script config
  map, the deployment and the service), the hostname validator and the
  start script the hostname is written into.
 */
module KotsadmWeb {
  import opened Outcomes
  import opened GoText

  // ---------------------------------------------------------------------
  // Hostname validation

  const DNS1123SubdomainMaxLength: nat := 253

  predicate IsLowerAlphaNumeric(c: char) {
    'a' <= c <= 'z' || IsDigit(c)
  }

  /** One dot-separated label of `[a-z0-9]([-a-z0-9]*[a-z0-9])?`. */
  predicate IsSubdomainLabel(part: string) {
    && |part| > 0
    && IsLowerAlphaNumeric(part[0])
    && IsLowerAlphaNumeric(part[|part| - 1])
    && forall i :: 0 <= i < |part| ==> IsLowerAlphaNumeric(part[i]) || part[i] == '-'
  }

  /**
    Kubernetes' `validation.IsDNS1123Subdomain`, the host-name syntax of
    section 2.1 of RFC 1123 in lower case: at most 253 characters, made of
    dot-separated labels.
   */
  predicate IsDNS1123Subdomain(s: string) {
    |s| <= DNS1123SubdomainMaxLength && forall part :: part in Split(s, '.') ==> IsSubdomainLabel(part)
  }

  /** The `Validate` function of the hostname prompt. */
  function ValidateHostname(input: string): (r: Outcome)
    ensures Count(input, ':') > 1 ==> r == Fail("only hostname or hostname:port are allowed formats")
    ensures r.Pass? ==> Count(input, ':') <= 1
  {
    if ':' !in input then
      if IsDNS1123Subdomain(input) then Pass else Fail("a DNS-1123 subdomain must consist of lower case alphanumeric characters, '-' or '.'")
    else
      var split := Split(input, ':');
      if |split| != 2 then Fail("only hostname or hostname:port are allowed formats")
      else if !IsDNS1123Subdomain(split[0]) then Fail("a DNS-1123 subdomain must consist of lower case alphanumeric characters, '-' or '.'")
      else if Atoi(split[1]).None? then Fail("invalid syntax")
      else Pass
  }

  /**
    A hostname is accepted exactly when it is a DNS-1123 subdomain, or it
    has a single colon with a DNS-1123 subdomain before it and an integer
    after it.
   */
  lemma ValidateHostnameAccepts(input: string)
    ensures ValidateHostname(input) == Pass <==>
              (':' !in input && IsDNS1123Subdomain(input)) ||
              (exists i :: 0 <= i < |input| && input[i] == ':' && ':' !in input[..i] && ':' !in input[i + 1..] &&
                           IsDNS1123Subdomain(input[..i]) && Atoi(input[i + 1..]).Some?)
  {
    if ':' in input {
      if Count(input, ':') == 1 {
        var i := OnlySeparatorIndex(input, ':');
        SplitAtOnlySeparator(input, ':', i);
        forall j | 0 <= j < |input| && input[j] == ':' && ':' !in input[..j] && ':' !in input[j + 1..]
          ensures j == i
        {
        }
      } else {
        forall j | 0 <= j < |input| && input[j] == ':' && ':' !in input[..j] && ':' !in input[j + 1..]
          ensures false
        {
          CountAroundOnly(input, ':', j);
        }
      }
    }
  }

  /** A character that occurs nowhere but at index `i` is counted once. */
  lemma {:induction false} CountAroundOnly(s: string, c: char, i: nat)
    requires i < |s| && s[i] == c && c !in s[..i] && c !in s[i + 1..]
    ensures Count(s, c) == 1
  {
    if i == 0 {
      assert s[1..] == s[i + 1..];
    } else {
      assert s[0] == s[..i][0];
      assert s[1..][..i - 1] == s[..i][1..];
      assert s[1..][i..] == s[i + 1..];
      CountAroundOnly(s[1..], c, i - 1);
    }
  }

  /**
    An accepted hostname holds no `/`, `'` or `&`, so it cannot break the
    `sed -i 's/…/http:\/\/<hostname>…/g'` commands of the start script.
   */
  lemma {:induction false} AcceptedHostnameIsSedSafe(input: string)
    requires ValidateHostname(input) == Pass
    ensures forall i :: 0 <= i < |input| ==> input[i] != '/' && input[i] != '\'' && input[i] != '&'
  {
    if ':' !in input {
      SubdomainCharacters(input);
    } else {
      var i := OnlySeparatorIndex(input, ':');
      SplitAtOnlySeparator(input, ':', i);
      HostPortIsSedSafe(input, i);
    }
  }

  /** The `host:port` case: a subdomain, the colon, and an integer. */
  lemma HostPortIsSedSafe(input: string, i: nat)
    requires i < |input| && input[i] == ':'
    requires IsDNS1123Subdomain(input[..i]) && Atoi(input[i + 1..]).Some?
    ensures forall j :: 0 <= j < |input| ==> input[j] != '/' && input[j] != '\'' && input[j] != '&'
  {
    var host, port := input[..i], input[i + 1..];
    SubdomainCharacters(host);
    AtoiCharacters(port);
    assert input == host + [':'] + port;
  }

  /** Text `Atoi` accepts is made of digits and signs. */
  lemma AtoiCharacters(s: string)
    requires Atoi(s).Some?
    ensures forall i :: 0 <= i < |s| ==> IsDigit(s[i]) || s[i] == '+' || s[i] == '-'
  {
    if s[0] == '+' || s[0] == '-' {
      assert forall i :: 1 <= i < |s| ==> s[i] == s[1..][i - 1];
    }
  }

  lemma SubdomainCharacters(s: string)
    requires IsDNS1123Subdomain(s)
    ensures forall i :: 0 <= i < |s| ==> IsLowerAlphaNumeric(s[i]) || s[i] == '-' || s[i] == '.'
  {
    forall i | 0 <= i < |s| && s[i] != '.'
      ensures IsLowerAlphaNumeric(s[i]) || s[i] == '-'
    {
      var part, k := SplitCovers(s, '.', i);
    }
  }

  /** Each character other than the separator lies in one of the pieces. */
  lemma {:induction false} SplitCovers(s: string, sep: char, i: nat) returns (part: string, k: nat)
    requires i < |s| && s[i] != sep
    ensures part in Split(s, sep) && k < |part| && part[k] == s[i]
  {
    var rest := Split(s[1..], sep);
    if i == 0 {
      part, k := [s[0]] + rest[0], 0;
    } else {
      var p, j := SplitCovers(s[1..], sep, i - 1);
      if s[0] != sep && p == rest[0] {
        part, k := [s[0]] + rest[0], j + 1;
      } else {
        part, k := p, j;
      }
    }
  }

  // ---------------------------------------------------------------------
  // The start script

  /** A piece of the start script: literal text, or the place the hostname goes. */
  datatype ScriptPiece = Text(text: string) | HostnameSlot

  /**
    The text of `start-kotsadm-web.sh` between the places the hostname goes:
    each endpoint placeholder of `index.html` is replaced by a URL on the
    hostname.
   */
  const ScriptPrologue: string := @"#!/bin/bash
sed -i 's/###_GRAPHQL_ENDPOINT_###/http:\/\/"
  const AfterGraphqlHost: string := @"\/graphql/g' /usr/share/nginx/html/index.html
sed -i 's/###_REST_ENDPOINT_###/http:\/\/"
  const AfterRestHost: string := @"\/api/g' /usr/share/nginx/html/index.html
sed -i 's/###_GITHUB_CLIENT_ID_###/not-supported/g' /usr/share/nginx/html/index.html
sed -i 's/###_SHIPDOWNLOAD_ENDPOINT_###/http:\/\/"
  const AfterShipDownloadHost: string := @"\/api\/v1\/download/g' /usr/share/nginx/html/index.html
sed -i 's/###_SHIPINIT_ENDPOINT_###/http:\/\/"
  const AfterShipInitHost: string := @"\/api\/v1\/init\//g' /usr/share/nginx/html/index.html
sed -i 's/###_SHIPUPDATE_ENDPOINT_###/http:\/\/"
  const AfterShipUpdateHost: string := @"\/api\/v1\/update\//g' /usr/share/nginx/html/index.html
sed -i 's/###_SHIPEDIT_ENDPOINT_###/http:\/\/"
  const AfterShipEditHost: string := @"\/api\/v1\/edit\//g' /usr/share/nginx/html/index.html
sed -i 's/###_GITHUB_REDIRECT_URI_###/http:\/\/"
  const AfterGithubRedirectHost: string := @"\/auth\/github\/callback/g' /usr/share/nginx/html/index.html
sed -i 's/###_GITHUB_INSTALL_URL_###/not-supportetd/g' /usr/share/nginx/html/index.html
sed -i 's/###_INSTALL_ENDPOINT_###/http:\/\/"
  const AfterInstallHost: string := @"\/api\/install/g' /usr/share/nginx/html/index.html

nginx -g ""daemon off;"""

  const StartScriptTexts: seq<string> := [
    ScriptPrologue, AfterGraphqlHost, AfterRestHost,
    AfterShipDownloadHost, AfterShipInitHost, AfterShipUpdateHost,
    AfterShipEditHost, AfterGithubRedirectHost, AfterInstallHost
  ]

  /** The pieces of a format string: its texts with a hostname slot between each two. */
  function Template(texts: seq<string>): seq<ScriptPiece>
    requires |texts| > 0
  {
    if |texts| == 1 then [Text(texts[0])]
    else Template(texts[..|texts| - 1]) + [HostnameSlot, Text(texts[|texts| - 1])]
  }

  const StartScriptTemplate: seq<ScriptPiece> := Template(StartScriptTexts)

  /** The script with `hostname` written into every slot. */
  function Render(pieces: seq<ScriptPiece>, hostname: string): string {
    if pieces == [] then ""
    else
      var last := pieces[|pieces| - 1];
      Render(pieces[..|pieces| - 1], hostname) + (if last.HostnameSlot? then hostname else last.text)
  }

  /** How many times the hostname is written into the script. */
  function SlotCount(pieces: seq<ScriptPiece>): (n: nat)
    ensures n == multiset(pieces)[HostnameSlot]
  {
    if pieces == [] then 0
    else
      var front := pieces[..|pieces| - 1];
      assert pieces == front + [pieces[|pieces| - 1]];
      SlotCount(front) + (if pieces[|pieces| - 1].HostnameSlot? then 1 else 0)
  }

  lemma {:induction false} RenderAppend(a: seq<ScriptPiece>, b: seq<ScriptPiece>, hostname: string)
    ensures Render(a + b, hostname) == Render(a, hostname) + Render(b, hostname)
  {
    if b != [] {
      RenderAppend(a, b[..|b| - 1], hostname);
      assert (a + b)[..|a + b| - 1] == a + b[..|b| - 1];
    } else {
      assert a + b == a;
    }
  }

  /** The hostname appears verbatim wherever the template has a slot. */
  lemma RenderAtSlot(pieces: seq<ScriptPiece>, hostname: string, i: nat)
    requires i < |pieces| && pieces[i].HostnameSlot?
    ensures Render(pieces, hostname) == Render(pieces[..i], hostname) + hostname + Render(pieces[i + 1..], hostname)
  {
    assert pieces == pieces[..i] + [pieces[i]] + pieces[i + 1..];
    RenderAppend(pieces[..i] + [pieces[i]], pieces[i + 1..], hostname);
    RenderAppend(pieces[..i], [pieces[i]], hostname);
    assert [pieces[i]][..0] == [];
  }

  /** Writing the hostname into a format string's last slot: the rest, the hostname, then the last text. */
  lemma RenderLastSlot(texts: seq<string>, hostname: string)
    requires |texts| > 1
    ensures Render(Template(texts), hostname) ==
            Render(Template(texts[..|texts| - 1]), hostname) + hostname + texts[|texts| - 1]
  {
    var last: seq<ScriptPiece> := [HostnameSlot, Text(texts[|texts| - 1])];
    assert Template(texts) == Template(texts[..|texts| - 1]) + last;
    RenderAppend(Template(texts[..|texts| - 1]), last, hostname);
    var slot: seq<ScriptPiece> := [HostnameSlot];
    assert slot[..0] == [];
    assert Render(slot, hostname) == hostname;
    assert last[..1] == slot;
  }

  /** `fmt.Sprintf` of a format string whose verbs are all `%s` of one value: the texts with `value` between each two. */
  function Interpolate(texts: seq<string>, value: string): string
    requires |texts| > 0
  {
    if |texts| == 1 then texts[0]
    else Interpolate(texts[..|texts| - 1], value) + value + texts[|texts| - 1]
  }

  /** Rendering a format string's template on the hostname is `fmt.Sprintf` of its texts on the hostname. */
  lemma {:induction false} RenderIsInterpolate(texts: seq<string>, hostname: string)
    requires |texts| > 0
    ensures Render(Template(texts), hostname) == Interpolate(texts, hostname)
  {
    if |texts| == 1 {
      assert Template(texts) == [Text(texts[0])];
      assert Template(texts)[..0] == [];
    } else {
      RenderIsInterpolate(texts[..|texts| - 1], hostname);
      RenderLastSlot(texts, hostname);
    }
  }

  /** A format string has one hostname slot fewer than it has texts. */
  lemma {:induction false} TemplateSlots(texts: seq<string>)
    requires |texts| > 0
    ensures SlotCount(Template(texts)) == |texts| - 1
  {
    if |texts| > 1 {
      var front := texts[..|texts| - 1];
      TemplateSlots(front);
      var t := Template(texts);
      assert t == Template(front) + [HostnameSlot, Text(texts[|texts| - 1])];
      assert multiset(t) == multiset(Template(front)) + multiset{HostnameSlot, Text(texts[|texts| - 1])};
    }
  }

  /** Texts and slots alternate, starting and ending with a text. */
  lemma {:induction false} TemplateAlternates(texts: seq<string>)
    requires |texts| > 0
    ensures |Template(texts)| == 2 * |texts| - 1
    ensures forall i :: 0 <= i < |Template(texts)| ==> (Template(texts)[i].HostnameSlot? <==> i % 2 == 1)
  {
    if |texts| > 1 {
      var front := texts[..|texts| - 1];
      TemplateAlternates(front);
      assert Template(texts) == Template(front) + [HostnameSlot, Text(texts[|texts| - 1])];
    }
  }

  /** The start script writes the hostname into eight places, each right after a text. */
  lemma StartScriptHasEightSlots()
    ensures SlotCount(StartScriptTemplate) == 8
    ensures forall i :: 0 <= i < |StartScriptTemplate| && StartScriptTemplate[i].HostnameSlot? ==>
              0 < i && StartScriptTemplate[i - 1].Text?
  {
    TemplateSlots(StartScriptTexts);
    TemplateAlternates(StartScriptTexts);
  }

  // ---------------------------------------------------------------------
  // Prompts: the operator's entries in order; Ctrl-C after the last one

  datatype Prompted<T> = Answered(value: T) | Interrupted

  /** The index of the first entry that passes validation; `|entries|` when none does. */
  function FirstValidIndex(entries: seq<string>): (k: nat)
    ensures k <= |entries|
    ensures forall j :: 0 <= j < k ==> ValidateHostname(entries[j]).Fail?
    ensures k < |entries| ==> ValidateHostname(entries[k]).Pass?
  {
    if entries == [] then 0
    else if ValidateHostname(entries[0]).Pass? then 0
    else
      var k := FirstValidIndex(entries[1..]);
      assert forall j :: 1 <= j < |entries| ==> entries[1..][j - 1] == entries[j];
      k + 1
  }

  /** The hostname the prompt returns: the first entry that passes validation. */
  function FirstValidHostname(entries: seq<string>): (r: Prompted<string>)
    ensures r.Answered? ==> exists k :: 0 <= k < |entries| && entries[k] == r.value &&
                                        ValidateHostname(r.value).Pass? &&
                                        forall j :: 0 <= j < k ==> ValidateHostname(entries[j]).Fail?
    ensures r.Interrupted? <==> forall i :: 0 <= i < |entries| ==> ValidateHostname(entries[i]).Fail?
  {
    var k := FirstValidIndex(entries);
    if k < |entries| then Answered(entries[k]) else Interrupted
  }

  /** `promptForHostname`: invalid entries are refused and the prompt asks again. */
  method PromptForHostname(entries: seq<string>) returns (r: Prompted<string>)
    ensures r == FirstValidHostname(entries)
  {
    var i := 0;
    while i < |entries|
      invariant i <= |entries|
      invariant forall j :: 0 <= j < i ==> ValidateHostname(entries[j]).Fail?
    {
      if ValidateHostname(entries[i]).Pass? {
        assert FirstValidIndex(entries) == i;
        return Answered(entries[i]);
      }
      i := i + 1;
    }
    assert FirstValidIndex(entries) == |entries|;
    return Interrupted;
  }

  /** The node port the prompt returns: the first entry `Atoi` accepts, as a number. */
  function FirstNodePort(entries: seq<string>): (r: Prompted<int>)
    ensures r.Answered? ==> exists k :: 0 <= k < |entries| && Atoi(entries[k]) == Some(r.value) &&
                                        forall j :: 0 <= j < k ==> Atoi(entries[j]).None?
    ensures r.Interrupted? <==> forall i :: 0 <= i < |entries| ==> Atoi(entries[i]).None?
  {
    if entries == [] then Interrupted
    else if Atoi(entries[0]).Some? then Answered(Atoi(entries[0]).value)
    else
      var r := FirstNodePort(entries[1..]);
      assert forall i :: 1 <= i < |entries| ==> entries[1..][i - 1] == entries[i];
      r
  }

  /** `promptForWebNodePort`: the prompt validates with `Atoi` and returns the number it reads. */
  method PromptForWebNodePort(entries: seq<string>) returns (r: Prompted<int>)
    ensures r == FirstNodePort(entries)
  {
    var i := 0;
    while i < |entries|
      invariant i <= |entries|
      invariant FirstNodePort(entries) == FirstNodePort(entries[i..])
    {
      var nodePort := Atoi(entries[i]);
      if nodePort.Some? {
        return Answered(nodePort.value);
      }
      assert entries[i..][1..] == entries[i + 1..];
      i := i + 1;
    }
    return Interrupted;
  }

  /** `int32(n)`: the low 32 bits of `n` as a two's-complement number. */
  function ToInt32(n: int): (r: int)
    ensures -0x8000_0000 <= r < 0x8000_0000
    ensures (r - n) % 0x1_0000_0000 == 0
    ensures -0x8000_0000 <= n < 0x8000_0000 ==> r == n
  {
    (n + 0x8000_0000) % 0x1_0000_0000 - 0x8000_0000
  }

  /** The items of the service-type select prompt. */
  datatype ServiceTypeAnswer = ChoseClusterIP | ChoseNodePort | ChoseLoadBalancer | SelectInterrupted

  function ItemLabel(a: ServiceTypeAnswer): string
    requires !a.SelectInterrupted?
  {
    match a
    case ChoseClusterIP => "ClusterIP"
    case ChoseNodePort => "NodePort"
    case ChoseLoadBalancer => "LoadBalancer"
  }

  // ---------------------------------------------------------------------
  // Objects

  datatype ServiceType = ClusterIPService | NodePortService | LoadBalancerService

  /** A service port; `nodePort` 0 means unset, as in Go. */
  datatype ServicePort = ServicePort(name: string, port: int, targetPort: string, nodePort: int)

  datatype ServiceSpec = ServiceSpec(serviceType: ServiceType, port: ServicePort)

  datatype ConfigMap = ConfigMap(data: map<string, string>)

  datatype Deployment = Deployment(image: string, containerPort: int, args: seq<string>, scriptsConfigMap: string)

  datatype Service = Service(selector: string, spec: ServiceSpec)

  datatype ObjectKind = ConfigMapKind | DeploymentKind | ServiceKind

  /** Which API calls fail with an error other than NotFound. */
  datatype ApiFaults = ApiFaults(getFails: set<ObjectKind>, createFails: set<ObjectKind>)

  /** Objects are keyed by namespace and name. */
  type ObjectKey = (string, string)

  /** What `ensureWeb` returns; `Exited` stands for the process exiting on Ctrl-C at a prompt. */
  datatype EnsureResult = Ensured | Failed(msg: string) | Exited

  /**
    The service `ensureWebService` asks for: NodePort with the options'
    node port converted by `int32`, LoadBalancer, or ClusterIP for any other value; always port
    3000 named "http".
   */
  function WebServiceSpec(serviceType: string, nodePort: int): (spec: ServiceSpec)
    ensures spec.port.name == "http" && spec.port.port == 3000 && spec.port.targetPort == "http"
    ensures spec.serviceType == NodePortService <==> serviceType == "NodePort"
    ensures spec.serviceType == LoadBalancerService <==> serviceType == "LoadBalancer"
    ensures spec.serviceType == ClusterIPService <==> serviceType != "NodePort" && serviceType != "LoadBalancer"
    ensures spec.port.nodePort == if serviceType == "NodePort" then ToInt32(nodePort) else 0
  {
    if serviceType == "NodePort" then ServiceSpec(NodePortService, ServicePort("http", 3000, "http", ToInt32(nodePort)))
    else if serviceType == "LoadBalancer" then ServiceSpec(LoadBalancerService, ServicePort("http", 3000, "http", 0))
    else ServiceSpec(ClusterIPService, ServicePort("http", 3000, "http", 0))
  }

  /** The `kotsadm-web-scripts` data: the one start script, `fmt.Sprintf` of its texts on the hostname. */
  function WebScriptsConfigMap(hostname: string): (cm: ConfigMap)
    ensures cm.data.Keys == {"start-kotsadm-web.sh"}
    ensures cm.data["start-kotsadm-web.sh"] == Interpolate(StartScriptTexts, hostname)
  {
    RenderIsInterpolate(StartScriptTexts, hostname);
    ConfigMap(map["start-kotsadm-web.sh" := Render(StartScriptTemplate, hostname)])
  }

  const WebDeployment: Deployment :=
    Deployment("kotsadm/kotsadm-web:alpha", 3000, ["/scripts/start-kotsadm-web.sh"], "kotsadm-web-scripts")

  /**
    Create-if-absent: the object is created only when the Get finds
    nothing; an existing object is never modified; a Get error other than
    NotFound, or a failed create, is an error and changes nothing.
   */
  function EnsureObject<V>(objects: map<ObjectKey, V>, key: ObjectKey, desired: V, kind: ObjectKind, faults: ApiFaults)
    : (r: (Outcome, map<ObjectKey, V>))
    ensures key in objects ==> r.1 == objects
    ensures r.0.Fail? ==> r.1 == objects
    ensures r.0 == Pass <==> kind !in faults.getFails && (key in objects || kind !in faults.createFails)
    ensures r.1 != objects ==> key !in objects && r.1 == objects[key := desired]
    ensures r.0 == Pass && key !in objects ==> r.1 == objects[key := desired]
    ensures r.0.Fail? ==> r.0.msg == if kind in faults.getFails then GetError(kind) else CreateError(kind)
  {
    if kind in faults.getFails then (Fail(GetError(kind)), objects)
    else if key in objects then (Pass, objects)
    else if kind in faults.createFails then (Fail(CreateError(kind)), objects)
    else (Pass, objects[key := desired])
  }

  function GetError(kind: ObjectKind): string {
    match kind
    case ConfigMapKind => "failed to get existing config map"
    case DeploymentKind => "failed to get existing deployment"
    case ServiceKind => "failed to get existing service"
  }

  function CreateError(kind: ObjectKind): string {
    match kind
    case ConfigMapKind => "failed to create configmap"
    case DeploymentKind => "failed to create deployment"
    case ServiceKind => "Failed to create service"
  }

  /** The options `ensureWeb` fills in. */
  class DeployOptions {
    var namespace: string
    var hostname: string
    var serviceType: string
    /** An int32 in Go; the service converts it with `int32` again, which keeps any value already in range. */
    var nodePort: int

    constructor (namespace: string, hostname: string, serviceType: string, nodePort: int)
      ensures this.namespace == namespace && this.hostname == hostname
      ensures this.serviceType == serviceType && this.nodePort == nodePort
    {
      this.namespace := namespace;
      this.hostname := hostname;
      this.serviceType := serviceType;
      this.nodePort := nodePort;
    }

    /**
      `promptForWebServiceType`: returns the chosen type; choosing NodePort
      also asks for the node port and stores it, truncated to 32 bits.
     */
    method PromptForWebServiceType(answer: ServiceTypeAnswer, nodePortEntries: seq<string>) returns (r: Prompted<string>)
      modifies this
      ensures namespace == old(namespace) && hostname == old(hostname) && serviceType == old(serviceType)
      ensures answer.SelectInterrupted? ==> r.Interrupted? && nodePort == old(nodePort)
      ensures answer == ChoseNodePort ==>
                (r.Interrupted? <==> FirstNodePort(nodePortEntries).Interrupted?) &&
                (r.Answered? ==> r.value == "NodePort" && nodePort == ToInt32(FirstNodePort(nodePortEntries).value))
      ensures answer != ChoseNodePort && !answer.SelectInterrupted? ==>
                r == Answered(ItemLabel(answer)) && nodePort == old(nodePort)
    {
      if answer.SelectInterrupted? {
        return Interrupted;
      }
      var result := ItemLabel(answer);
      if result == "NodePort" {
        var port := PromptForWebNodePort(nodePortEntries);
        if port.Interrupted? {
          return Interrupted;
        }
        nodePort := ToInt32(port.value);
      }
      return Answered(result);
    }
  }

  /** The kotsadm-web objects in the cluster. */
  class Cluster {
    var configMaps: map<ObjectKey, ConfigMap>
    var deployments: map<ObjectKey, Deployment>
    var services: map<ObjectKey, Service>

    constructor (configMaps: map<ObjectKey, ConfigMap>, deployments: map<ObjectKey, Deployment>,
                 services: map<ObjectKey, Service>)
      ensures this.configMaps == configMaps && this.deployments == deployments && this.services == services
    {
      this.configMaps := configMaps;
      this.deployments := deployments;
      this.services := services;
    }

    /** `ensureWebConfig`: the start-script config map, rendered with the hostname, when absent. */
    method EnsureWebConfig(namespace: string, hostname: string, faults: ApiFaults) returns (r: Outcome)
      modifies this
      ensures (r, configMaps) == EnsureObject(old(configMaps), (namespace, "kotsadm-web-scripts"),
                                               WebScriptsConfigMap(hostname), ConfigMapKind, faults)
      ensures deployments == old(deployments) && services == old(services)
    {
      var key := (namespace, "kotsadm-web-scripts");
      if ConfigMapKind in faults.getFails {
        return Fail("failed to get existing config map");
      }
      if key !in configMaps {
        if ConfigMapKind in faults.createFails {
          return Fail("failed to create configmap");
        }
        configMaps := configMaps[key := WebScriptsConfigMap(hostname)];
      }
      return Pass;
    }

    /** `ensureWebDeployment`: the kotsadm-web deployment, when absent. */
    method EnsureWebDeployment(namespace: string, faults: ApiFaults) returns (r: Outcome)
      modifies this
      ensures (r, deployments) == EnsureObject(old(deployments), (namespace, "kotsadm-web"),
                                                WebDeployment, DeploymentKind, faults)
      ensures configMaps == old(configMaps) && services == old(services)
    {
      var key := (namespace, "kotsadm-web");
      if DeploymentKind in faults.getFails {
        return Fail("failed to get existing deployment");
      }
      if key !in deployments {
        if DeploymentKind in faults.createFails {
          return Fail("failed to create deployment");
        }
        deployments := deployments[key := WebDeployment];
      }
      return Pass;
    }

    /** `ensureWebService`: the kotsadm-web service of the chosen type, when absent. */
    method EnsureWebService(namespace: string, serviceType: string, nodePort: int, faults: ApiFaults)
      returns (r: Outcome)
      modifies this
      ensures (r, services) == EnsureObject(old(services), (namespace, "kotsadm-web"),
                                             Service("kotsadm-web", WebServiceSpec(serviceType, nodePort)),
                                             ServiceKind, faults)
      ensures configMaps == old(configMaps) && deployments == old(deployments)
    {
      var port := ServicePort("http", 3000, "http", 0);
      var chosenType := ClusterIPService;
      if serviceType == "NodePort" {
        chosenType := NodePortService;
        port := port.(nodePort := ToInt32(nodePort));
      } else if serviceType == "LoadBalancer" {
        chosenType := LoadBalancerService;
      }

      var key := (namespace, "kotsadm-web");
      if ServiceKind in faults.getFails {
        return Fail("failed to get existing service");
      }
      if key !in services {
        if ServiceKind in faults.createFails {
          return Fail("Failed to create service");
        }
        services := services[key := Service("kotsadm-web", ServiceSpec(chosenType, port))];
      }
      return Pass;
    }
  }

  /**
    The first half of `ensureWeb`: prompt for the hostname and then the
    service type, each only when it is empty. `false` stands for the
    process exiting on Ctrl-C at one of the prompts.
   */
  method FillWebOptions(options: DeployOptions, hostnameEntries: seq<string>,
                        serviceTypeAnswer: ServiceTypeAnswer, nodePortEntries: seq<string>)
    returns (filled: bool)
    modifies options
    ensures options.namespace == old(options.namespace)
    ensures old(options.hostname) != "" ==> options.hostname == old(options.hostname)
    ensures old(options.hostname) == "" && filled ==>
              FirstValidHostname(hostnameEntries) == Answered(options.hostname)
    ensures old(options.serviceType) != "" ==> options.serviceType == old(options.serviceType) &&
                                               options.nodePort == old(options.nodePort)
    ensures serviceTypeAnswer != ChoseNodePort ==> options.nodePort == old(options.nodePort)
    ensures old(options.serviceType) == "" && filled ==>
              && !serviceTypeAnswer.SelectInterrupted?
              && options.serviceType == ItemLabel(serviceTypeAnswer)
              && (serviceTypeAnswer == ChoseNodePort ==>
                    FirstNodePort(nodePortEntries).Answered? &&
                    options.nodePort == ToInt32(FirstNodePort(nodePortEntries).value))
    ensures !filled <==>
              (old(options.hostname) == "" && FirstValidHostname(hostnameEntries).Interrupted?) ||
              (old(options.serviceType) == "" &&
               (serviceTypeAnswer.SelectInterrupted? ||
                (serviceTypeAnswer == ChoseNodePort && FirstNodePort(nodePortEntries).Interrupted?)))
  {
    if options.hostname == "" {
      var hostname := PromptForHostname(hostnameEntries);
      if hostname.Interrupted? {
        return false;
      }
      options.hostname := hostname.value;
    }

    if options.serviceType == "" {
      var serviceType := options.PromptForWebServiceType(serviceTypeAnswer, nodePortEntries);
      if serviceType.Interrupted? {
        return false;
      }
      options.serviceType := serviceType.value;
    }
    return true;
  }

  /**
    `ensureWeb`: fill in the hostname and the service type only when they
    are empty, then ensure the config map, the deployment and the service,
    in that order, stopping at the first failure.
   */
  method EnsureWeb(options: DeployOptions, cluster: Cluster, hostnameEntries: seq<string>,
                   serviceTypeAnswer: ServiceTypeAnswer, nodePortEntries: seq<string>, faults: ApiFaults)
    returns (r: EnsureResult)
    modifies options, cluster
    ensures options.namespace == old(options.namespace)
    ensures old(options.hostname) != "" ==> options.hostname == old(options.hostname)
    ensures old(options.hostname) == "" && !r.Exited? ==>
              FirstValidHostname(hostnameEntries) == Answered(options.hostname)
    ensures old(options.serviceType) != "" ==> options.serviceType == old(options.serviceType) &&
                                               options.nodePort == old(options.nodePort)
    ensures serviceTypeAnswer != ChoseNodePort ==> options.nodePort == old(options.nodePort)
    ensures old(options.serviceType) == "" && !r.Exited? ==>
              && !serviceTypeAnswer.SelectInterrupted?
              && options.serviceType == ItemLabel(serviceTypeAnswer)
              && (serviceTypeAnswer == ChoseNodePort ==>
                    FirstNodePort(nodePortEntries).Answered? &&
                    options.nodePort == ToInt32(FirstNodePort(nodePortEntries).value))
    ensures r.Exited? <==>
              (old(options.hostname) == "" && FirstValidHostname(hostnameEntries).Interrupted?) ||
              (old(options.serviceType) == "" &&
               (serviceTypeAnswer.SelectInterrupted? ||
                (serviceTypeAnswer == ChoseNodePort && FirstNodePort(nodePortEntries).Interrupted?)))
    ensures r.Exited? ==> cluster.configMaps == old(cluster.configMaps) &&
                          cluster.deployments == old(cluster.deployments) && cluster.services == old(cluster.services)
    ensures !r.Exited? ==>
              var config := EnsureObject(old(cluster.configMaps), (options.namespace, "kotsadm-web-scripts"),
                                         WebScriptsConfigMap(options.hostname), ConfigMapKind, faults);
              var deployment := EnsureObject(old(cluster.deployments), (options.namespace, "kotsadm-web"),
                                             WebDeployment, DeploymentKind, faults);
              var service := EnsureObject(old(cluster.services), (options.namespace, "kotsadm-web"),
                                          Service("kotsadm-web", WebServiceSpec(options.serviceType, options.nodePort)),
                                          ServiceKind, faults);
              && cluster.configMaps == config.1
              && cluster.deployments == (if config.0 == Pass then deployment.1 else old(cluster.deployments))
              && cluster.services == (if config.0 == Pass && deployment.0 == Pass then service.1 else old(cluster.services))
              && (r == Ensured <==> config.0 == Pass && deployment.0 == Pass && service.0 == Pass)
  {
    var filled := FillWebOptions(options, hostnameEntries, serviceTypeAnswer, nodePortEntries);
    if !filled {
      return Exited;
    }

    var config := cluster.EnsureWebConfig(options.namespace, options.hostname, faults);
    if config.Fail? {
      return Failed("failed to ensure web configmap: " + config.msg);
    }

    var deployment := cluster.EnsureWebDeployment(options.namespace, faults);
    if deployment.Fail? {
      return Failed("failed to ensure web deployment: " + deployment.msg);
    }

    var service := cluster.EnsureWebService(options.namespace, options.serviceType, options.nodePort, faults);
    if service.Fail? {
      return Failed("failed to ensure web service: " + service.msg);
    }

    return Ensured;
  }
}
