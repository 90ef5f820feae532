/**
 * `EarthquakeActivity`: the request URL it builds from the stored settings,
 * and how it updates the adapter's list and the empty view when a load ends.
 */
module Activity {
  import opened Wrappers
  import opened Quake
  import opened Adapter

  /** `USGS_REQUEST_URL`. */
  const UsgsRequestUrl: string := "http://earthquake.usgs.gov/fdsnws/event/1/query"

  /**
   * The preference keys and their defaults, which the activity reads from
   * string resources; their texts are resource data, not code.
   */
  datatype SettingsResources = SettingsResources(
    minMagnitudeKey: string, minMagnitudeDefault: string,
    limitKey: string, limitDefault: string,
    orderByKey: string, orderByDefault: string)

  /** The string values stored in the default `SharedPreferences`. */
  type SharedPreferences = map<string, string>

  /** `SharedPreferences.getString(key, defaultValue)`. */
  function GetString(preferences: SharedPreferences, key: string, defaultValue: string): string {
    if key in preferences then preferences[key] else defaultValue
  }

  /** A URI being built: the base URL and its query parameters in order, before percent-encoding. */
  datatype Uri = Uri(base: string, query: seq<(string, string)>)

  /** `Uri.Builder.appendQueryParameter`. */
  function AppendQueryParameter(uri: Uri, key: string, value: string): Uri {
    uri.(query := uri.query + [(key, value)])
  }

  /** The URI `onCreateLoader` hands to the loader. */
  function LoaderUri(preferences: SharedPreferences, settings: SettingsResources): (uri: Uri)
    ensures uri.base == UsgsRequestUrl
    ensures |uri.query| == 5
    ensures uri.query[0] == ("format", "geojson")
    ensures uri.query[1] == ("eventtype", "earthquake")
    ensures uri.query[2].0 == "minmag" && uri.query[3].0 == "limit" && uri.query[4].0 == "orderby"
    ensures uri.query[2].1 == if settings.minMagnitudeKey in preferences
                              then preferences[settings.minMagnitudeKey] else settings.minMagnitudeDefault
    ensures uri.query[3].1 == if settings.limitKey in preferences
                              then preferences[settings.limitKey] else settings.limitDefault
    ensures uri.query[4].1 == if settings.orderByKey in preferences
                              then preferences[settings.orderByKey] else settings.orderByDefault
  {
    var minMagnitude := GetString(preferences, settings.minMagnitudeKey, settings.minMagnitudeDefault);
    var limit := GetString(preferences, settings.limitKey, settings.limitDefault);
    var orderBy := GetString(preferences, settings.orderByKey, settings.orderByDefault);
    var uriBuilder := Uri(UsgsRequestUrl, []);
    var uriBuilder := AppendQueryParameter(uriBuilder, "format", "geojson");
    var uriBuilder := AppendQueryParameter(uriBuilder, "eventtype", "earthquake");
    var uriBuilder := AppendQueryParameter(uriBuilder, "minmag", minMagnitude);
    var uriBuilder := AppendQueryParameter(uriBuilder, "limit", limit);
    AppendQueryParameter(uriBuilder, "orderby", orderBy)
  }

  /** Whatever string is stored under a setting's key reaches the request unchanged. */
  lemma StoredSettingsPassThrough(preferences: SharedPreferences, settings: SettingsResources,
                                  minMagnitude: string, limit: string, orderBy: string)
    requires settings.minMagnitudeKey != settings.limitKey
    requires settings.minMagnitudeKey != settings.orderByKey && settings.limitKey != settings.orderByKey
    ensures var stored := preferences[settings.minMagnitudeKey := minMagnitude]
                                     [settings.limitKey := limit][settings.orderByKey := orderBy];
      LoaderUri(stored, settings).query
        == [("format", "geojson"), ("eventtype", "earthquake"),
            ("minmag", minMagnitude), ("limit", limit), ("orderby", orderBy)]
  {
  }

  /** The text of the list's empty view. */
  datatype EmptyStateText = NoText | NoInternet | NoEarthquakes

  class EarthquakeActivity {
    const adapter: EarthquakeAdapter
    var emptyStateText: EmptyStateText
    var progressBarHidden: bool
    var loaderStarted: bool

    /**
     * `onCreate`: the adapter starts empty; the loader is started only when the
     * network is connected, otherwise the spinner is hidden and the empty view
     * says `no_internet`.
     */
    constructor OnCreate(networkConnected: bool)
      ensures fresh(adapter) && adapter.items == []
      ensures loaderStarted == networkConnected
      ensures progressBarHidden == !networkConnected
      ensures emptyStateText == if networkConnected then NoText else NoInternet
    {
      adapter := new EarthquakeAdapter([]);
      if networkConnected {
        loaderStarted := true;
        progressBarHidden := false;
        emptyStateText := NoText;
      } else {
        loaderStarted := false;
        progressBarHidden := true;
        emptyStateText := NoInternet;
      }
    }

    /**
     * `onLoadFinished`: the adapter is cleared, then holds the delivered list
     * when it is non-null and non-empty; earlier contents are gone either way.
     */
    method OnLoadFinished(earthquakeList: Option<seq<Earthquake>>)
      modifies this, adapter
      ensures adapter.items == if earthquakeList.Some? && earthquakeList.value != []
                               then earthquakeList.value else []
      ensures progressBarHidden && emptyStateText == NoEarthquakes
      ensures loaderStarted == old(loaderStarted)
    {
      progressBarHidden := true;
      emptyStateText := NoEarthquakes;
      adapter.Clear();
      if earthquakeList.Some? && earthquakeList.value != [] {
        adapter.AddAll(earthquakeList.value);
      }
    }

    /** `onLoaderReset`: the adapter is emptied and nothing else changes. */
    method OnLoaderReset()
      modifies adapter
      ensures adapter.items == []
      ensures unchanged(this)
    {
      adapter.Clear();
    }
  }
}
