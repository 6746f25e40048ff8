// Geolocation of the stream page in the `/stream/:name?` handler of
// ncc-8-0.js: the `ch=` value is normalised against a whitelist and looked
// up in the `channelCoordinates` table.
module Geolocation {
  import opened Options
  import opened ChannelQuery

  /** Latitude and longitude in units of 1e-4 degree (25.958 is 259580). */
  datatype Geo = Geo(latitude: int, longitude: int)

  /** The names the `gpsChannel !== ...` chain lets through, in the source's order. */
  const GpsChannels: seq<string> := [
    "CBSMiami", "CBSNY", "CBSBuffalo", "CBSBoston", "CBSBaltimore",
    "CBSCincinnati", "CBSCleveland", "CBSPittsburgh", "CBSHouston", "CBSIN",
    "CBSJville", "CBSTN", "CBSDenver", "CBSKC", "CBSLasVegas", "CBSDallas",
    "CBSPhilly", "CBSWA", "CBSChicago", "CBSDetroit", "CBSGB", "CBSMN",
    "CBSATL", "CBSNC", "CBSNO", "CBSTB", "CBSAZ", "CBSLA", "CBSSanFran",
    "CBSSeattle", "CBSMontgomery", "CBSBirmingham", "default"
  ]

  /** The `channelCoordinates` object. */
  const ChannelCoordinates: map<string, Geo> := map[
    "CBSMiami" := Geo(259580, -802390),
    "CBSNY" := Geo(407160, -740030),
    "CBSMontgomery" := Geo(323660, -863000),
    "CBSBuffalo" := Geo(428864, -788784),
    "CBSBoston" := Geo(420654, -715387),
    "CBSBaltimore" := Geo(392904, -766122),
    "CBSCincinnati" := Geo(391031, -845120),
    "CBSCleveland" := Geo(414993, -816944),
    "CBSPittsburgh" := Geo(404406, -799959),
    "CBSHouston" := Geo(297604, -953698),
    "CBSIN" := Geo(397684, -861581),
    "CBSJville" := Geo(303322, -816557),
    "CBSTN" := Geo(361627, -867816),
    "CBSDenver" := Geo(397392, -1049903),
    "CBSKC" := Geo(390997, -945786),
    "CBSLasVegas" := Geo(361699, -1151398),
    "CBSDallas" := Geo(327497, -973328),
    "CBSPhilly" := Geo(399526, -751652),
    "CBSWA" := Geo(389540, -768667),
    "CBSChicago" := Geo(418781, -876298),
    "CBSDetroit" := Geo(423314, -830458),
    "CBSGB" := Geo(445133, -880159),
    "CBSMN" := Geo(449778, -932650),
    "CBSATL" := Geo(337490, -843880),
    "CBSNC" := Geo(352271, -808431),
    "CBSNO" := Geo(299511, -900715),
    "CBSTB" := Geo(279506, -824572),
    "CBSAZ" := Geo(335371, -1120880),
    "CBSLA" := Geo(339564, -1183406),
    "CBSSanFran" := Geo(373541, -1219552),
    "CBSSeattle" := Geo(476062, -1223321),
    "CBSBirmingham" := Geo(335180, -868100),
    "default" := Geo(335180, -868100)
  ]

  /** The coordinates used for "default" and "CBSBirmingham": 33.518, -86.810. */
  const DefaultGeo := Geo(335180, -868100)

  /**
   * `gpsChannel`: a whitelisted channel name is kept; anything else, a
   * missing `ch=` included, becomes "default". Every result is a key of
   * the coordinate table.
   */
  function GpsChannel(channel: Option<string>): (r: string)
    ensures channel.Some? && channel.value in GpsChannels ==> r == channel.value
    ensures !(channel.Some? && channel.value in GpsChannels) ==> r == "default"
    ensures r in GpsChannels && r in ChannelCoordinates
  {
    if channel.Some? && channel.value in GpsChannels then channel.value else "default"
  }

  /** The whitelist names 33 channels, none twice. */
  lemma WhitelistDistinct()
    ensures |GpsChannels| == 33
    ensures forall i, j :: 0 <= i < j < |GpsChannels| ==> GpsChannels[i] != GpsChannels[j]
  {
  }

  /** The whitelist and the coordinate table name exactly the same channels. */
  lemma WhitelistMatchesTable()
    ensures forall n :: n in GpsChannels <==> n in ChannelCoordinates
  {
  }

  /** "default" and "CBSBirmingham" share coordinates; nothing else uses them. */
  lemma DefaultIsBirmingham()
    ensures ChannelCoordinates["default"] == ChannelCoordinates["CBSBirmingham"] == DefaultGeo
    ensures forall n :: n in ChannelCoordinates && ChannelCoordinates[n] == DefaultGeo ==>
      n == "default" || n == "CBSBirmingham"
  {
  }

  /** What the `if (gpsChannel in channelCoordinates)` test decides. */
  datatype GeoDecision = Located(geo: Geo) | ChannelNotFound(channel: Option<string>)

  function ResolveGeolocation(url: string): (r: GeoDecision)
    ensures r.Located? ==> r.geo == ChannelCoordinates[GpsChannel(ChannelOf(url))]
  {
    var gps := GpsChannel(ChannelOf(url));
    if gps in ChannelCoordinates then Located(ChannelCoordinates[gps])
    else ChannelNotFound(ChannelOf(url))
  }

  /** The 404 branch (ncc-8-0.js:396-400) cannot be taken. */
  lemma NotFoundUnreachable(url: string)
    ensures ResolveGeolocation(url).Located?
    ensures ChannelOf(url).None? ==> ResolveGeolocation(url).geo == DefaultGeo
  {
  }

  /** An unlisted channel name is located at the default coordinates. */
  lemma UnlistedChannelIsDefault(url: string)
    requires ChannelOf(url).Some? && ChannelOf(url).value !in GpsChannels
    ensures ResolveGeolocation(url) == Located(DefaultGeo)
  {
  }

  /** A whitelisted `ch=` value selects its own row of the table. */
  lemma WhitelistedChannelIsLocated(url: string, name: string)
    requires ChannelOf(url) == Some(name) && name in GpsChannels
    ensures ResolveGeolocation(url) == Located(ChannelCoordinates[name])
  {
  }

}

// Worked examples of the geolocation decision on concrete URLs.
module GeolocationExamples {
  import opened Options
  import opened ChannelQuery
  import opened Geolocation

  /** The `ch=` value of `https://example.test?ch=<value>`. */
  lemma ExampleChannel(value: string)
    requires |value| > 0 && '&' !in value
    ensures ChannelOf("https://example.test?ch=" + value) == Some(value)
  {
    var prefix := "https://example.test";
    assert '?' !in prefix && '&' !in prefix;
    ChannelOfSimpleQuery(prefix, value, "");
    assert prefix + "?ch=" + value == "https://example.test?ch=" + value;
  }

  /** `https://example.test?ch=CBSMiami` is located at 25.958, -80.239. */
  lemma MiamiExample()
    ensures ResolveGeolocation("https://example.test?ch=CBSMiami") == Located(Geo(259580, -802390))
  {
    MiamiChannel();
    MiamiRow();
    WhitelistedChannelIsLocated("https://example.test?ch=CBSMiami", "CBSMiami");
  }

  lemma MiamiChannel()
    ensures ChannelOf("https://example.test?ch=CBSMiami") == Some("CBSMiami")
  {
    ExampleChannel("CBSMiami");
    assert "https://example.test?ch=" + "CBSMiami" == "https://example.test?ch=CBSMiami";
  }

  lemma MiamiRow()
    ensures "CBSMiami" in GpsChannels && ChannelCoordinates["CBSMiami"] == Geo(259580, -802390)
  {
    assert GpsChannels[0] == "CBSMiami";
  }

  /** `https://example.test?ch=&ch=UnknownXYZ` falls back to 33.518, -86.810. */
  lemma UnknownExample()
    ensures ResolveGeolocation("https://example.test?ch=&ch=UnknownXYZ") == Located(DefaultGeo)
  {
    SkipsEmptyValue();
    UnknownIsUnlisted();
    UnlistedChannelIsDefault("https://example.test?ch=&ch=UnknownXYZ");
  }

  /** The empty first value is passed over. */
  lemma SkipsEmptyValue()
    ensures ChannelOf("https://example.test?ch=&ch=UnknownXYZ") == Some("UnknownXYZ")
  {
    var prefix := "https://example.test";
    assert '?' !in prefix && '&' !in prefix;
    ChannelOfSkipsEmptyValue(prefix, "UnknownXYZ");
    assert prefix + "?ch=&ch=" + "UnknownXYZ" == "https://example.test?ch=&ch=UnknownXYZ";
  }

  lemma UnknownIsUnlisted()
    ensures "UnknownXYZ" !in GpsChannels
  {
  }

}
