/**
 * The parts of an application's configuration the routing codec reads: the
 * `url` section (grammar type, separators, front-controller file, rewrite
 * switch, base link, parameters added to every request) and the `router`
 * section (controller aliases).
 */
module Config {
  import opened PhpArray

  /** The `url` section of an app's `init.php`. */
  datatype UrlConfig = UrlConfig(
    urlType: int,                 // `type`: which of the five URL grammars, 1 to 5
    dot: string,                  // `dot`: separator between controller, action and parameters
    ext: string,                  // `ext`: suffix such as ".html"; "" or "0" means none
    index: string,                // `index`: front-controller file name, usually "index.php"
    rewrite: bool,                // `rewrite`: the server hides the front controller
    fullRequest: string,          // `full_request`: the site's base link
    additionParams: Arr<string>)  // `router_addition_params`: merged into every request's parameters

  /** What one application contributes: its name, its `url` section and its `router` section. */
  datatype App = App(name: string, url: UrlConfig, router: Arr<string>)

  /**
   * The running application and the `url` sections of the other applications'
   * `init.php` files that exist on disk, by application name.
   */
  datatype Env = Env(current: App, initFiles: map<string, UrlConfig>)
}
