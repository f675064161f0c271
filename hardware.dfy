/**
 * The board as the receive callback sees it: the Wi-Fi chip's LED output,
 * the GPIO input levels of the two buttons and the on-chip temperature
 * sensor behind ADC input 4.
 */
module Hardware {
  const ButtonAPin: nat := 5
  const ButtonBPin: nat := 6

  /** The buttons are active-low: `gpio_get(pin) == 0` means pressed. */
  function IsPressed(high: bool): bool
  {
    !high
  }

  class Board {
    /** The level last written to CYW43_WL_GPIO_LED_PIN (true = on). */
    var led: bool
    /** The electrical level of each GPIO input, indexed by pin number (true = high). */
    var levels: seq<bool>
    /** The `%.2f` rendering of the temperature the sensor currently yields. */
    var temperatureText: string
    /** How many hardware reads have been performed. */
    var samples: nat

    constructor (led: bool, levels: seq<bool>, temperatureText: string)
      ensures this.led == led && this.levels == levels
      ensures this.temperatureText == temperatureText && samples == 0
    {
      this.led := led;
      this.levels := levels;
      this.temperatureText := temperatureText;
      samples := 0;
    }

    /** `cyw43_arch_gpio_put(LED_PIN, on)`. */
    method GpioPut(on: bool)
      modifies this`led
      ensures led == on
    {
      led := on;
    }

    /** `gpio_get(pin)`: the pin's current level. */
    method GpioGet(pin: nat) returns (high: bool)
      requires pin < |levels|
      modifies this`samples
      ensures high == levels[pin]
      ensures samples == old(samples) + 1
    {
      high := levels[pin];
      samples := samples + 1;
    }

    /**
     * `adc_select_input(4); adc_read()` followed by the linear conversion to
     * degrees, delivered as the text `%.2f` prints for it.
     */
    method ReadTemperature() returns (text: string)
      modifies this`samples
      ensures text == temperatureText
      ensures samples == old(samples) + 1
    {
      text := temperatureText;
      samples := samples + 1;
    }
  }
}
