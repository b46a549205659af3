/** Values shared by every part of the model: optional values, the error
    messages the library throws, the test-runner configuration it reads and
    the browser calls it issues. */
module Common {

  datatype Option<+T> = None | Some(value: T)

  /** The library's errors, named after the keys of its error table. */
  datatype Error =
    | LocatorNotFoundForList   // LOCATOR.NOT_FOUND_FOR_LIST
    | SelectorSyntax           // the browser refused a malformed selector
    | NavigationRoot           // NAVIGATION.ROOT: no base URL anywhere
    | NavigationBaseUrl        // NAVIGATION.BASE_URL: base URL not absolute
    | ActionSubmitForm         // ACTION.SUBMIT_FORM: target is not a form
    | NoScreenshotPath         // "No screenshotPath configured ..."
    | DriverFailure            // a rejection coming from the browser driver

  datatype Result<+T> = Ok(value: T) | Err(error: Error)

  /** The parts of the processed protractor configuration the library reads. */
  datatype Config = Config(
    baseUrl: Option<string>,
    getPageTimeout: Option<int>,
    screenshotPath: Option<string>)

  /** JavaScript truthiness of a value that is a string or undefined. */
  predicate Truthy(s: Option<string>)
  {
    s.Some? && s.value != ""
  }

  /** JavaScript truthiness of a value that is a number or undefined. */
  predicate TruthyNumber(n: Option<int>)
  {
    n.Some? && n.value != 0
  }

  /** Calls the library makes on the browser object. */
  datatype BrowserCall =
    | Get(url: string, timeout: int)   // browser.get(url, timeout)
    | SetLocation(path: string)        // browser.setLocation(path)
}
