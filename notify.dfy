/** The embed part of `KTPDeployer.send_discord_notification`
    (deploy/deploy.py): whether a notification is sent at all, its colour and
    title, and the error summary capped at five entries. The HTTP request is
    an outcome handed in by the caller. */
module Notify {
  import opened Options
  import opened Text
  import opened DeployConfig

  const Green := 0x00FF00
  const Red := 0xFF0000
  /** How many errors the summary lists one by one. */
  const MaxListed := 5

  datatype Field = Field(name: string, value: string, inline: bool)

  datatype Embed = Embed(
    title: string,
    description: string,
    color: int,
    fields: seq<Field>,
    footer: string,
    timestamp: string)

  datatype Payload = Payload(channelId: string, secret: string, embeds: seq<Embed>)

  /** What the relay did with the POST: an HTTP status, or an exception
      (URL error, timeout, anything else). */
  datatype Delivery = Status(code: int) | Raised

  /** The relay URL, secret and channel are all set and non-empty. */
  predicate Configured(config: Config) {
    config.relayUrl != "" && config.relaySecret != "" && config.channelId != ""
  }

  /** `f"... and {count} more"`: the line that counts the errors left out. */
  function MoreLine(count: int): (r: string)
    ensures '\n' !in r
  {
    var c := IntToString(count);
    assert forall j :: 0 <= j < |c| ==> ("... and " + c + " more")[8 + j] == c[j];
    "... and " + c + " more"
  }

  /** The lines of the error summary: the first five errors in order, then
      `... and N more` when there are more than five. */
  function SummaryLines(errors: seq<string>): (r: seq<string>)
    ensures |errors| <= MaxListed ==> r == errors
    ensures |errors| > MaxListed ==> |r| == MaxListed + 1 && r[..MaxListed] == errors[..MaxListed]
    ensures |errors| > MaxListed ==> r[MaxListed] == MoreLine(|errors| - MaxListed)
  {
    if |errors| <= MaxListed then errors
    else errors[..MaxListed] + [MoreLine(|errors| - MaxListed)]
  }

  /** The error text exactly as the source assembles it: the first five
      errors joined by newlines, and the `more` line appended. It is the
      summary lines joined by newlines. */
  function ErrorText(errors: seq<string>): (r: string)
    ensures r == Join(SummaryLines(errors), "\n")
  {
    var listed := if |errors| <= MaxListed then errors else errors[..MaxListed];
    var more := MoreLine(|errors| - MaxListed);
    if |errors| > MaxListed then
      JoinAppend(listed, more, "\n");
      Join(listed, "\n") + "\n" + more
    else
      Join(listed, "\n")
  }

  /** Reading the summary back line by line gives the first five errors and
      at most one extra line, provided no error spans several lines. */
  lemma ErrorTextLines(errors: seq<string>)
    requires errors != []
    requires forall k :: 0 <= k < |errors| ==> '\n' !in errors[k]
    ensures Split(ErrorText(errors), '\n') == SummaryLines(errors)
    ensures |Split(ErrorText(errors), '\n')| <= MaxListed + 1
  {
    var lines := SummaryLines(errors);
    forall k | 0 <= k < |lines|
      ensures '\n' !in lines[k]
    {
      if k < MaxListed && k < |errors| {
        assert lines[k] == errors[k];
      }
    }
    SplitJoin(lines, '\n');
  }

  /** The embed fields: clusters and components, and an Errors field only
      when there are errors. */
  function Fields(clusters: seq<string>, components: seq<string>, errors: seq<string>): (r: seq<Field>)
    ensures |r| == if errors == [] then 2 else 3
    ensures r[0] == Field("Clusters", Join(clusters, ", "), true)
    ensures r[1] == Field("Components", Join(components, ", "), true)
    ensures errors != [] ==> r[2] == Field("Errors", "```" + ErrorText(errors) + "```", false)
  {
    [Field("Clusters", Join(clusters, ", "), true), Field("Components", Join(components, ", "), true)]
      + (if errors != [] then [Field("Errors", "```" + ErrorText(errors) + "```", false)] else [])
  }

  /** The payload to post, or `None` when the relay is not configured and
      the notification is skipped. `errors` is empty where the source passes
      `None`; the two behave alike. */
  function BuildPayload(config: Config, version: string, success: bool, clusters: seq<string>,
                        components: seq<string>, errors: seq<string>, timestamp: string): (r: Option<Payload>)
    ensures r.None? <==> !Configured(config)
    ensures r.Some? ==> r.value.channelId == config.channelId && r.value.secret == config.relaySecret
    ensures r.Some? ==> |r.value.embeds| == 1
  {
    if !Configured(config) then None
    else
      var title := if success then "Deployment Successful" else "Deployment Failed";
      var description := if success then "Version `" + version + "` deployed successfully"
                         else "Version `" + version + "` deployment had errors";
      var embed := Embed(title, description, if success then Green else Red,
                         Fields(clusters, components, errors), "KTP Deploy", timestamp);
      Some(Payload(config.channelId, config.relaySecret, [embed]))
  }

  /** The embed's look follows the outcome: green and "Deployment
      Successful" exactly on success, red and "Deployment Failed" otherwise;
      the Errors field is there exactly when the error list is not empty.
      The description names the version and the outcome, the fields are those
      built from the clusters, components and errors, and the footer and
      timestamp are the tool's name and the given time. */
  lemma PayloadLook(config: Config, version: string, success: bool, clusters: seq<string>,
                    components: seq<string>, errors: seq<string>, timestamp: string)
    requires Configured(config)
    ensures var e := BuildPayload(config, version, success, clusters, components, errors, timestamp).value.embeds[0];
      && (e.color == Green <==> success)
      && (e.color == Red <==> !success)
      && e.title == (if success then "Deployment Successful" else "Deployment Failed")
      && (|e.fields| == 3 <==> errors != [])
      && (forall f :: f in e.fields && f.name == "Errors" ==> errors != [] && f.value == "```" + ErrorText(errors) + "```")
    ensures var e := BuildPayload(config, version, success, clusters, components, errors, timestamp).value.embeds[0];
      && e.fields == Fields(clusters, components, errors)
      && e.description == (if success then "Version `" + version + "` deployed successfully"
                           else "Version `" + version + "` deployment had errors")
      && e.footer == "KTP Deploy"
      && e.timestamp == timestamp
  {
  }

  /** `send_discord_notification`'s result: true only when the relay is
      configured and answered with status 200. */
  function NotificationSent(config: Config, delivery: Delivery): (sent: bool)
    ensures sent <==> Configured(config) && delivery == Status(200)
  {
    if !Configured(config) then false
    else match delivery
      case Status(code) => code == 200
      case Raised => false
  }
}
